/** The task-scoped store of raw tool results, over content-addressed files. */
module ResultStore {
  import opened Common
  import opened CasUri

  // ---------------------------------------------------------------- what a result is filed under

  datatype Operation = Operation(runId: string, callId: string)

  datatype Artifact = Artifact(uri: string, name: string, size: nat, contentHash: string)

  /** Everything a reference says, apart from its own URI, and the arguments of the call. */
  datatype Manifest = Manifest(
    owner: string,
    operation: Operation,
    tool: string,
    arguments: string,
    receivedAt: int,
    plain: bool,
    artifact: Artifact)

  /**
   * The task and its bounds, and the functions the store builds on: a hash, how manifests and
   * import metadata are written as JSON, and the size of an import message. The corpus holds
   * every text that occurs: results, serialized manifests, and the contents of files.
   */
  datatype Setting = Setting(
    root: string,
    task: string,
    maxBytes: nat,
    maxTotalBytes: nat,
    bodyLimit: nat,
    corpus: set<string>,
    hash: string -> string,
    serialize: Manifest -> string,
    metadata: Manifest -> string,
    wire: (string, string) -> nat)

  ghost predicate Shows(operationOf: string -> Operation, serialize: Manifest -> string) {
    forall m :: operationOf(serialize(m)) == m.operation
  }

  /**
   * The hash gives 64 digits for every text, different ones for different texts of the corpus,
   * and a manifest's JSON shows which operation it is about.
   */
  ghost predicate Sensible(st: Setting) {
    && (forall bytes :: Hex64(st.hash(bytes)))
    && (forall a, b :: a in st.corpus && b in st.corpus && st.hash(a) == st.hash(b) ==> a == b)
    && (exists operationOf :: Shows(operationOf, st.serialize))
  }

  lemma {:induction false} SerializeShows(st: Setting, a: Manifest, b: Manifest)
    requires Sensible(st) && st.serialize(a) == st.serialize(b)
    ensures a.operation == b.operation
  {
    var operationOf :| Shows(operationOf, st.serialize);
    assert operationOf(st.serialize(a)) == a.operation && operationOf(st.serialize(b)) == b.operation;
  }

  type Tree = map<string, string>

  /** A request as `retain` gets it, at some time. */
  datatype Request = Request(
    operation: Operation, tool: string, arguments: string, text: string, plain: bool, now: int)

  function ArtifactName(st: Setting, op: Operation): string {
    "tool-result-" + st.hash(op.runId + [0 as char] + op.callId)
  }

  function ManifestOf(st: Setting, rq: Request): Manifest {
    var name := ArtifactName(st, rq.operation);
    var h := st.hash(rq.text);
    Manifest(st.task, rq.operation, rq.tool, rq.arguments, rq.now, rq.plain,
             Artifact(BuildUri(h, name), name, |rq.text|, h))
  }

  /** The manifest says of a request, under its task, whatever the store was told of it. */
  ghost predicate Describes(st: Setting, m: Manifest, rq: Request) {
    && m.owner == st.task && m.operation == rq.operation && m.tool == rq.tool && m.arguments == rq.arguments
    && m.receivedAt == rq.now && m.plain == rq.plain
    && m.artifact.size == |rq.text| && m.artifact.contentHash == st.hash(rq.text)
    && m.artifact.name != "" && m.artifact.uri == BuildUri(st.hash(rq.text), m.artifact.name)
  }

  /** The request's text and the manifest made for it are in the corpus. */
  predicate Occurs(st: Setting, rq: Request) {
    rq.text in st.corpus && st.serialize(ManifestOf(st, rq)) in st.corpus
  }

  /** The URI of a reference: its manifest, stored beside the content. */
  function ReferenceUri(st: Setting, m: Manifest): string {
    BuildUri(st.hash(st.serialize(m)), m.artifact.name + ".source.json")
  }

  // ---------------------------------------------------------------- content-addressed files

  /** Bytes already stored under their hash are not written again. */
  function Write(st: Setting, tree: Tree, bytes: string): Tree
    requires Sensible(st)
  {
    var path := ShardPath(st.root, st.hash(bytes));
    if path in tree then tree else tree[path := bytes]
  }

  /** The bytes behind a URI, if they are there, small enough, and have the URI's hash. */
  function Read(st: Setting, tree: Tree, uri: string): Option<string> {
    match ParseUri(uri)
    case None => None
    case Some((h, _)) =>
      if !Hex64(h) then None
      else
        var path := ShardPath(st.root, h);
        if path !in tree || |tree[path]| > st.maxBytes || st.hash(tree[path]) != h then None
        else Some(tree[path])
  }

  /** Whatever the files hold, tampered with or not, is in the corpus. */
  ghost predicate Known(st: Setting, tree: Tree) {
    forall path :: path in tree ==> tree[path] in st.corpus
  }

  /** No file has been tampered with. */
  ghost predicate Faithful(st: Setting, tree: Tree) {
    forall h: string :: Hex64(h) && ShardPath(st.root, h) in tree ==> st.hash(tree[ShardPath(st.root, h)]) == h
  }

  predicate Present(st: Setting, tree: Tree, bytes: string)
    requires Hex64(st.hash(bytes))
  {
    ShardPath(st.root, st.hash(bytes)) in tree
  }

  /** What is read is what was written, whatever happened to the files in between. */
  lemma {:induction false} ReadIsExact(st: Setting, tree: Tree, bytes: string, name: string)
    requires Sensible(st) && Known(st, tree) && bytes in st.corpus && name != ""
    ensures var r := Read(st, tree, BuildUri(st.hash(bytes), name));
            && (r.Some? ==> r.value == bytes)
            && (Faithful(st, tree) && Present(st, tree, bytes) && |bytes| <= st.maxBytes ==> r.Some?)
  {
    UriRoundTrip(st.hash(bytes), name);
  }

  lemma {:induction false} WriteKeeps(st: Setting, tree: Tree, bytes: string, other: string)
    requires Sensible(st)
    ensures var after := Write(st, tree, bytes);
            && Present(st, after, bytes)
            && (Present(st, tree, other) ==> Present(st, after, other))
            && (Faithful(st, tree) ==> Faithful(st, after))
            && (Known(st, tree) && bytes in st.corpus ==> Known(st, after))
  {
    var after := Write(st, tree, bytes);
    if Faithful(st, tree) {
      forall h: string | Hex64(h) && ShardPath(st.root, h) in after
        ensures st.hash(after[ShardPath(st.root, h)]) == h
      {
        if ShardPath(st.root, h) == ShardPath(st.root, st.hash(bytes)) {
          ShardInjective(st.root, h, st.hash(bytes));
        }
      }
    }
  }

  // ---------------------------------------------------------------- retaining

  /** How far a `retain` call has come past its reservation. */
  datatype Stage = Written | Described | Issued | Failed

  /** One `retain` call that reserved its operation, with what it is about to store. */
  datatype Frame = Frame(request: Request, manifest: Manifest, stage: Stage)

  datatype Store = Store(
    tree: Tree,
    issued: map<string, Manifest>,
    usedBytes: nat,
    issuedOperations: set<Operation>,
    ambiguousOperations: set<Operation>,
    frames: seq<Frame>)

  /** The pieces of a `retain` call between its awaits; `alive` is what `check` finds. */
  datatype Event =
    | Reserve(request: Request, alive: bool, disk: bool)
    | Describe(frame: nat, alive: bool, disk: bool)
    | Publish(frame: nat, alive: bool)

  function Cost(st: Setting, text: string, m: Manifest): nat {
    |text| + |st.serialize(m)|
  }

  /** All the bounds a result must meet. */
  predicate Admissible(st: Setting, used: nat, text: string, m: Manifest) {
    && |text| <= st.maxBytes
    && |st.serialize(m)| <= st.maxBytes
    && |text| + |st.metadata(m)| <= st.maxBytes
    && st.wire(text, st.metadata(m)) <= Min(st.maxBytes, st.bodyLimit)
    && used + Cost(st, text, m) <= st.maxTotalBytes
  }

  predicate Enabled(st: Setting, s: Store, e: Event) {
    match e
    case Reserve(rq, _, _) => Occurs(st, rq)
    case Describe(k, _, _) => k < |s.frames| && s.frames[k].stage == Written
    case Publish(k, _) => k < |s.frames| && s.frames[k].stage == Described
  }

  function Apply(st: Setting, s: Store, e: Event): Store
    requires Sensible(st) && Enabled(st, s, e)
  {
    match e
    case Reserve(rq, alive, disk) =>
      var m := ManifestOf(st, rq);
      if !alive then s
      else if rq.operation in s.issuedOperations then
        s.(ambiguousOperations := s.ambiguousOperations + {rq.operation})
      else if !Admissible(st, s.usedBytes, rq.text, m) then s
      else
        s.(issuedOperations := s.issuedOperations + {rq.operation},
           usedBytes := s.usedBytes + Cost(st, rq.text, m),
           tree := if disk then Write(st, s.tree, rq.text) else s.tree,
           frames := s.frames + [Frame(rq, m, if disk then Written else Failed)])
    case Describe(k, alive, disk) =>
      var f := s.frames[k];
      var done := alive && disk;
      s.(tree := if done then Write(st, s.tree, st.serialize(f.manifest)) else s.tree,
         frames := s.frames[k := f.(stage := if done then Described else Failed)])
    case Publish(k, alive) =>
      var f := s.frames[k];
      s.(issued := if alive then s.issued[ReferenceUri(st, f.manifest) := f.manifest] else s.issued,
         frames := s.frames[k := f.(stage := if alive then Issued else Failed)])
  }

  ghost predicate Leads(st: Setting, s: Store, events: seq<Event>, t: Store)
    requires Sensible(st)
    decreases |events|
  {
    if events == [] then s == t
    else Enabled(st, s, events[0]) && Leads(st, Apply(st, s, events[0]), events[1..], t)
  }

  function Empty(tree: Tree): Store {
    Store(tree, map[], 0, {}, {}, [])
  }

  // ---------------------------------------------------------------- what every interleaving keeps

  function Total(st: Setting, frames: seq<Frame>): nat {
    if frames == [] then 0
    else
      var f := frames[|frames| - 1];
      Total(st, frames[..|frames| - 1]) + Cost(st, f.request.text, f.manifest)
  }

  /** The bytes of the results that were given a reference. */
  function IssuedBytes(st: Setting, frames: seq<Frame>): nat {
    if frames == [] then 0
    else
      var f := frames[|frames| - 1];
      IssuedBytes(st, frames[..|frames| - 1])
      + (if f.stage.Issued? then |f.request.text| + |st.serialize(f.manifest)| else 0)
  }

  /** A call that ends without a reference adds nothing, one that gets a reference both its texts. */
  lemma {:induction false} IssuedBytesNext(st: Setting, frames: seq<Frame>, f: Frame)
    ensures IssuedBytes(st, []) == 0
    ensures !f.stage.Issued? ==> IssuedBytes(st, frames + [f]) == IssuedBytes(st, frames)
    ensures f.stage.Issued? ==>
              IssuedBytes(st, frames + [f])
              == IssuedBytes(st, frames) + |f.request.text| + |st.serialize(f.manifest)|
  {
    assert (frames + [f])[..|frames|] == frames;
  }

  /** A frame says of its text what a manifest must say, and its parts are stored as far as it has come. */
  ghost predicate FrameSound(st: Setting, s: Store, f: Frame)
    requires Sensible(st)
  {
    && f.request.operation in s.issuedOperations
    && f.request.text in st.corpus && st.serialize(f.manifest) in st.corpus
    && Describes(st, f.manifest, f.request) && |f.request.text| <= st.maxBytes
    && |st.serialize(f.manifest)| <= st.maxBytes
    && (!f.stage.Failed? ==> Present(st, s.tree, f.request.text))
    && (f.stage.Described? || f.stage.Issued? ==> Present(st, s.tree, st.serialize(f.manifest)))
    && (f.stage.Issued? ==>
          ReferenceUri(st, f.manifest) in s.issued && s.issued[ReferenceUri(st, f.manifest)] == f.manifest)
  }

  ghost predicate FramesSound(st: Setting, s: Store)
    requires Sensible(st)
  {
    forall k :: 0 <= k < |s.frames| ==> FrameSound(st, s, s.frames[k])
  }

  ghost predicate OneFrameEach(s: Store) {
    forall i, j :: 0 <= i < j < |s.frames| ==> s.frames[i].request.operation != s.frames[j].request.operation
  }

  /** A frame that stands for a reference. */
  ghost predicate Backs(st: Setting, s: Store, uri: string, k: nat) {
    && k < |s.frames| && uri in s.issued && s.frames[k].stage.Issued?
    && s.frames[k].manifest == s.issued[uri] && uri == ReferenceUri(st, s.frames[k].manifest)
  }

  /** Every reference belongs to a frame. */
  ghost predicate Accountable(st: Setting, s: Store) {
    forall uri :: uri in s.issued ==> exists k: nat :: Backs(st, s, uri, k)
  }

  ghost predicate Sound(st: Setting, s: Store)
    requires Sensible(st)
  {
    && s.usedBytes == Total(st, s.frames) <= st.maxTotalBytes
    && s.ambiguousOperations <= s.issuedOperations
    && OneFrameEach(s) && FramesSound(st, s) && Accountable(st, s) && Known(st, s.tree)
  }

  lemma {:induction false} TotalAppend(st: Setting, frames: seq<Frame>, f: Frame)
    ensures Total(st, frames + [f]) == Total(st, frames) + Cost(st, f.request.text, f.manifest)
  {
    assert (frames + [f])[..|frames|] == frames;
  }

  lemma {:induction false} TotalRestage(st: Setting, frames: seq<Frame>, k: nat, stage: Stage)
    requires k < |frames|
    ensures Total(st, frames[k := frames[k].(stage := stage)]) == Total(st, frames)
  {
    var n := |frames| - 1;
    var after := frames[k := frames[k].(stage := stage)];
    if k == n {
      assert after[..n] == frames[..n];
    } else {
      TotalRestage(st, frames[..n], k, stage);
      assert after[..n] == frames[..n][k := frames[k].(stage := stage)];
    }
  }

  /** The reservation covers everything that has a reference. */
  lemma {:induction false} IssuedWithinTotal(st: Setting, frames: seq<Frame>)
    ensures IssuedBytes(st, frames) <= Total(st, frames)
  {
    if frames != [] {
      IssuedWithinTotal(st, frames[..|frames| - 1]);
    }
  }

  /** What one event leaves of a frame, and of the store around it. */
  lemma {:induction false} FrameStays(st: Setting, s: Store, t: Store, f: Frame)
    requires Sensible(st) && FrameSound(st, s, f)
    requires s.issuedOperations <= t.issuedOperations
    requires Present(st, s.tree, f.request.text) ==> Present(st, t.tree, f.request.text)
    requires Present(st, s.tree, st.serialize(f.manifest)) ==> Present(st, t.tree, st.serialize(f.manifest))
    requires var uri := ReferenceUri(st, f.manifest);
             uri in s.issued ==> uri in t.issued && t.issued[uri] == s.issued[uri]
    ensures FrameSound(st, t, f)
  {
  }

  /** Two operations never share a reference. */
  lemma {:induction false} ReferencesDiffer(st: Setting, a: Manifest, b: Manifest)
    requires Sensible(st) && a.artifact.name != "" && b.artifact.name != ""
    requires st.serialize(a) in st.corpus && st.serialize(b) in st.corpus
    requires ReferenceUri(st, a) == ReferenceUri(st, b)
    ensures a.operation == b.operation
  {
    UriRoundTrip(st.hash(st.serialize(a)), a.artifact.name + ".source.json");
    UriRoundTrip(st.hash(st.serialize(b)), b.artifact.name + ".source.json");
    SerializeShows(st, a, b);
  }

  /** Files are only added, never changed. */
  lemma {:induction false} StepKeepsFiles(st: Setting, s: Store, e: Event, bytes: string)
    requires Sensible(st) && Enabled(st, s, e)
    ensures Present(st, s.tree, bytes) ==> Present(st, Apply(st, s, e).tree, bytes)
    ensures Faithful(st, s.tree) ==> Faithful(st, Apply(st, s, e).tree)
    ensures Known(st, s.tree) && FramesSound(st, s) ==> Known(st, Apply(st, s, e).tree)
  {
    match e {
      case Reserve(rq, _, _) => WriteKeeps(st, s.tree, rq.text, bytes);
      case Describe(k, _, _) => WriteKeeps(st, s.tree, st.serialize(s.frames[k].manifest), bytes);
      case Publish(_, _) =>
    }
  }

  /** The frame an event works on, afterwards. */
  lemma {:induction false} OwnFrameSound(st: Setting, s: Store, e: Event, k: nat)
    requires Sensible(st) && FramesSound(st, s) && Enabled(st, s, e)
    requires match e
             case Reserve(_, _, _) => k == |s.frames|
             case Describe(i, _, _) => k == i
             case Publish(i, _) => k == i
    requires k < |Apply(st, s, e).frames|
    ensures FrameSound(st, Apply(st, s, e), Apply(st, s, e).frames[k])
  {
    hide Write, BuildUri;
    match e {
      case Reserve(rq, _, _) =>
        WriteKeeps(st, s.tree, rq.text, rq.text);
      case Describe(i, _, _) =>
        assert FrameSound(st, s, s.frames[i]);
        WriteKeeps(st, s.tree, st.serialize(s.frames[i].manifest), s.frames[i].request.text);
      case Publish(i, _) =>
        assert FrameSound(st, s, s.frames[i]);
    }
  }

  /** Every other frame. */
  lemma {:induction false} OtherFrameSound(st: Setting, s: Store, e: Event, j: nat)
    requires Sensible(st) && FramesSound(st, s) && OneFrameEach(s) && Enabled(st, s, e) && j < |s.frames|
    requires match e
             case Reserve(_, _, _) => true
             case Describe(i, _, _) => j != i
             case Publish(i, _) => j != i
    ensures FrameSound(st, Apply(st, s, e), s.frames[j])
  {
    hide Write, Admissible, Present, BuildUri, Cost;
    var f := s.frames[j];
    assert FrameSound(st, s, f);
    StepKeepsFiles(st, s, e, f.request.text);
    StepKeepsFiles(st, s, e, st.serialize(f.manifest));
    if e.Publish? {
      assert FrameSound(st, s, s.frames[e.frame]);
      if ReferenceUri(st, f.manifest) == ReferenceUri(st, s.frames[e.frame].manifest) {
        ReferencesDiffer(st, f.manifest, s.frames[e.frame].manifest);
      }
    }
    FrameStays(st, s, Apply(st, s, e), f);
  }

  lemma {:induction false} StepKeepsFrames(st: Setting, s: Store, e: Event)
    requires Sensible(st) && FramesSound(st, s) && OneFrameEach(s) && Enabled(st, s, e)
    ensures FramesSound(st, Apply(st, s, e)) && OneFrameEach(Apply(st, s, e))
  {
    hide Write, Admissible, Present, BuildUri, Cost;
    var t := Apply(st, s, e);
    forall k | 0 <= k < |t.frames|
      ensures FrameSound(st, t, t.frames[k])
    {
      if (e.Reserve? && k == |s.frames|) || (!e.Reserve? && k == e.frame) {
        OwnFrameSound(st, s, e, k);
      } else {
        OtherFrameSound(st, s, e, k);
      }
    }
    forall k | 0 <= k < |s.frames|
      ensures s.frames[k].request.operation in s.issuedOperations
    {
      assert FrameSound(st, s, s.frames[k]);
    }
  }

  lemma {:induction false} StepKeepsTotal(st: Setting, s: Store, e: Event)
    requires Sensible(st) && Enabled(st, s, e) && s.usedBytes == Total(st, s.frames) <= st.maxTotalBytes
    ensures var t := Apply(st, s, e);
            t.usedBytes == Total(st, t.frames) <= st.maxTotalBytes
  {
    hide Sensible, Total, Write, ManifestOf, ReferenceUri, Occurs;
    var t := Apply(st, s, e);
    match e {
      case Reserve(_, _, _) =>
        if t.frames != s.frames {
          TotalAppend(st, s.frames, t.frames[|s.frames|]);
        }
      case Describe(k, _, _) => TotalRestage(st, s.frames, k, t.frames[k].stage);
      case Publish(k, _) => TotalRestage(st, s.frames, k, t.frames[k].stage);
    }
  }

  lemma {:induction false} StepKeepsBacking(st: Setting, s: Store, e: Event, uri: string) returns (k: nat)
    requires Sensible(st) && Accountable(st, s) && Enabled(st, s, e) && uri in Apply(st, s, e).issued
    ensures Backs(st, Apply(st, s, e), uri, k)
  {
    hide Write, Admissible, ManifestOf, BuildUri, Cost;
    if e.Publish? && e.alive && uri == ReferenceUri(st, s.frames[e.frame].manifest) {
      k := e.frame;
    } else {
      k :| Backs(st, s, uri, k);
    }
  }

  lemma {:induction false} StepKeepsAccount(st: Setting, s: Store, e: Event)
    requires Sensible(st) && Accountable(st, s) && Enabled(st, s, e)
    ensures Accountable(st, Apply(st, s, e))
  {
    forall uri | uri in Apply(st, s, e).issued
      ensures exists k: nat :: Backs(st, Apply(st, s, e), uri, k)
    {
      var k := StepKeepsBacking(st, s, e, uri);
    }
  }

  lemma {:induction false} StepKeepsSound(st: Setting, s: Store, e: Event)
    requires Sensible(st) && Sound(st, s) && Enabled(st, s, e)
    ensures Sound(st, Apply(st, s, e))
  {
    StepKeepsTotal(st, s, e);
    StepKeepsFrames(st, s, e);
    StepKeepsAccount(st, s, e);
    StepKeepsFiles(st, s, e, "");
  }

  /** Every interleaving of the pieces of any number of retains keeps the store sound. */
  lemma {:induction false} AlwaysSound(st: Setting, s: Store, events: seq<Event>, t: Store)
    requires Sensible(st) && Sound(st, s) && Leads(st, s, events, t)
    ensures Sound(st, t)
    decreases |events|
  {
    if events != [] {
      StepKeepsSound(st, s, events[0]);
      AlwaysSound(st, Apply(st, s, events[0]), events[1..], t);
    }
  }

  // ---------------------------------------------------------------- resolving

  datatype Resolved = Resolved(content: string, manifest: Manifest, uri: string)

  /** Up to the first await: the checks, and the manifest read back. */
  function Lookup(st: Setting, s: Store, uri: string, runId: string, alive: bool): Option<(Manifest, string)> {
    if !alive || uri !in s.issued then None
    else
      var m := s.issued[uri];
      if Operation(runId, m.operation.callId) in s.ambiguousOperations
         || m.operation.runId != runId || m.owner != st.task
      then None
      else
        match Read(st, s.tree, uri)
        case None => None
        case Some(stored) => Some((m, stored))
  }

  /** Up to the second await: the manifest is compared, and the content read. */
  function Load(st: Setting, s: Store, m: Manifest, stored: string, alive: bool): Option<string> {
    if !alive || stored != st.serialize(m) then None else Read(st, s.tree, m.artifact.uri)
  }

  /** The rest: the content is compared with what the manifest says of it. */
  function Deliver(st: Setting, m: Manifest, uri: string, data: string, alive: bool): Option<Resolved> {
    if !alive || |data| != m.artifact.size || st.hash(data) != m.artifact.contentHash then None
    else Some(Resolved(data, m, uri))
  }

  /** The reference stands for this very request. */
  ghost predicate StandsFor(st: Setting, s: Store, uri: string, rq: Request) {
    exists k: nat :: Backs(st, s, uri, k) && s.frames[k].request == rq && Describes(st, s.issued[uri], rq)
  }

  /** The text of the request a reference stands for, and the manifest that describes it. */
  ghost predicate Retained(st: Setting, s: Store, uri: string, text: string, m: Manifest) {
    exists k: nat ::
      && Backs(st, s, uri, k) && s.frames[k].manifest == m
      && s.frames[k].request.text == text && Describes(st, m, s.frames[k].request)
  }

  /** An unexpired reference of the same run whose operation was not retried. */
  predicate Resolvable(st: Setting, s: Store, uri: string, runId: string) {
    && uri in s.issued && s.issued[uri].operation.runId == runId
    && s.issued[uri].operation !in s.ambiguousOperations
  }

  lemma {:induction false} RunKeepsFiles(st: Setting, s: Store, events: seq<Event>, t: Store, bytes: string)
    requires Sensible(st) && Leads(st, s, events, t)
    ensures Present(st, s.tree, bytes) ==> Present(st, t.tree, bytes)
    ensures Faithful(st, s.tree) ==> Faithful(st, t.tree)
    ensures Sound(st, s) ==> Known(st, t.tree)
    decreases |events|
  {
    if events != [] {
      StepKeepsFiles(st, s, events[0], bytes);
      if Sound(st, s) {
        StepKeepsSound(st, s, events[0]);
      }
      RunKeepsFiles(st, Apply(st, s, events[0]), events[1..], t, bytes);
    }
  }

  /**
   * Whatever other retains do between its awaits, and whatever has happened to the files, a
   * resolution returns exactly the retained text and manifest, or nothing.
   */
  lemma {:induction false} ResolvesExactly(
    st: Setting, s: Store, t: Store, uri: string, runId: string,
    alive0: bool, alive1: bool, alive2: bool, m: Manifest, stored: string, data: string)
    requires Sensible(st) && Sound(st, s) && Known(st, t.tree)
    requires Lookup(st, s, uri, runId, alive0) == Some((m, stored))
    requires Load(st, t, m, stored, alive1) == Some(data)
    requires Deliver(st, m, uri, data, alive2).Some?
    ensures Retained(st, s, uri, data, m) && m.operation.runId == runId && m.owner == st.task
  {
    var k: nat :| Backs(st, s, uri, k);
    var f := s.frames[k];
    assert FrameSound(st, s, f);
    assert Backs(st, s, uri, k) && f.request.text == data;
  }

  /** On untampered files every resolvable reference resolves; the read cap never trips. */
  lemma {:induction false} ResolvesAlways(
    st: Setting, s: Store, events: seq<Event>, t: Store, uri: string, runId: string)
    requires Sensible(st) && Sound(st, s) && Faithful(st, s.tree) && Leads(st, s, events, t)
    requires Resolvable(st, s, uri, runId)
    ensures var m := s.issued[uri];
            && Lookup(st, s, uri, runId, true) == Some((m, st.serialize(m)))
            && Load(st, t, m, st.serialize(m), true).Some?
            && Deliver(st, m, uri, Load(st, t, m, st.serialize(m), true).value, true).Some?
  {
    var k: nat :| Backs(st, s, uri, k);
    var f := s.frames[k];
    assert FrameSound(st, s, f);
    ReadIsExact(st, s.tree, st.serialize(f.manifest), f.manifest.artifact.name + ".source.json");
    RunKeepsFiles(st, s, events, t, f.request.text);
    ReadIsExact(st, t.tree, f.request.text, f.manifest.artifact.name);
  }

  /** A reference that was issued keeps its manifest and its text. */
  lemma {:induction false} StepKeepsReference(st: Setting, s: Store, e: Event, uri: string, k: nat)
    requires Sensible(st) && Sound(st, s) && Enabled(st, s, e) && Backs(st, s, uri, k)
    ensures Backs(st, Apply(st, s, e), uri, k) && Apply(st, s, e).frames[k] == s.frames[k]
  {
    hide Accountable, Total, Known, Write, Admissible, ManifestOf, Present, BuildUri, Cost;
    if e.Publish? && ReferenceUri(st, s.frames[e.frame].manifest) == uri {
      assert FrameSound(st, s, s.frames[k]);
      assert FrameSound(st, s, s.frames[e.frame]);
      ReferencesDiffer(st, s.frames[e.frame].manifest, s.frames[k].manifest);
    }
  }

  lemma {:induction false} ReferencesStay(
    st: Setting, s: Store, events: seq<Event>, t: Store, uri: string, text: string, m: Manifest)
    requires Sensible(st) && Sound(st, s) && Leads(st, s, events, t) && Retained(st, s, uri, text, m)
    ensures Retained(st, t, uri, text, m)
    decreases |events|
  {
    if events != [] {
      var k: nat :| && Backs(st, s, uri, k) && s.frames[k].manifest == m
                    && s.frames[k].request.text == text && Describes(st, m, s.frames[k].request);
      StepKeepsReference(st, s, events[0], uri, k);
      StepKeepsSound(st, s, events[0]);
      ReferencesStay(st, Apply(st, s, events[0]), events[1..], t, uri, text, m);
    }
  }

  // ---------------------------------------------------------------- what the store promises

  /** In every interleaving: reservations stay within the bound and cover all that was issued. */
  lemma {:induction false} BytesStayBounded(st: Setting, tree: Tree, events: seq<Event>, t: Store)
    requires Sensible(st) && Known(st, tree) && Leads(st, Empty(tree), events, t)
    ensures IssuedBytes(st, t.frames) <= t.usedBytes <= st.maxTotalBytes
  {
    AlwaysSound(st, Empty(tree), events, t);
    IssuedWithinTotal(st, t.frames);
  }

  /** An operation gets at most one reference. */
  lemma {:induction false} OneReferenceEach(st: Setting, tree: Tree, events: seq<Event>, t: Store, a: string, b: string)
    requires Sensible(st) && Known(st, tree) && Leads(st, Empty(tree), events, t)
    requires a in t.issued && b in t.issued && t.issued[a].operation == t.issued[b].operation
    ensures a == b
  {
    AlwaysSound(st, Empty(tree), events, t);
    var i: nat :| Backs(st, t, a, i);
    var j: nat :| Backs(st, t, b, j);
    assert FrameSound(st, t, t.frames[i]);
    assert FrameSound(st, t, t.frames[j]);
    assert t.frames[i].request.operation == t.frames[j].request.operation;
    assert i == j;
  }

  lemma {:induction false} RunKeepsAmbiguous(st: Setting, s: Store, events: seq<Event>, t: Store, op: Operation)
    requires Sensible(st) && Leads(st, s, events, t)
    ensures op in s.ambiguousOperations ==> op in t.ambiguousOperations
    ensures op in s.issuedOperations ==> op in t.issuedOperations
    decreases |events|
  {
    if events != [] {
      RunKeepsAmbiguous(st, Apply(st, s, events[0]), events[1..], t, op);
    }
  }

  /** Once a reserved operation has been retried, none of its references resolves any more. */
  lemma {:induction false} RetriedNeverResolves(
    st: Setting, s: Store, rq: Request, disk: bool, events: seq<Event>, t: Store,
    uri: string, runId: string, alive: bool)
    requires Sensible(st) && rq.operation in s.issuedOperations && Occurs(st, rq)
    requires Leads(st, Apply(st, s, Reserve(rq, true, disk)), events, t)
    requires uri in t.issued && t.issued[uri].operation == rq.operation
    ensures Lookup(st, t, uri, runId, alive).None?
  {
    RunKeepsAmbiguous(st, Apply(st, s, Reserve(rq, true, disk)), events, t, rq.operation);
  }

  // ---------------------------------------------------------------- a setting that meets the hypothesis

  function Digits(c: char): (h: string)
    requires HexDigit(c)
    ensures Hex64(h) && h[0] == c
  {
    seq(64, i => c)
  }

  /** An operation as one string: the length of the run id in unary, then both ids. */
  function Encode(op: Operation): string {
    seq(|op.runId|, i => '1') + ['0'] + (op.runId + op.callId)
  }

  function Decode(s: string): Operation {
    match IndexOf(s, '0')
    case None => Operation("", "")
    case Some(n) =>
      if 2 * n + 1 <= |s| then Operation(s[n + 1..2 * n + 1], s[2 * n + 1..]) else Operation("", "")
  }

  lemma {:induction false} DecodesBack(op: Operation)
    ensures Decode(Encode(op)) == op
  {
    var ones, ids := seq(|op.runId|, i => '1'), op.runId + op.callId;
    SplitAt(Encode(op), ones, '0', ids);
    var n := |op.runId|;
    DropDrop(Encode(op), n + 1, n);
    assert ids[..n] == op.runId && ids[n..] == op.callId;
  }

  /** A hash that keeps the empty text apart from all others, for a corpus of two. */
  function SmallSetting(op: Operation): Setting {
    Setting("/data", "task", 1000 + |Encode(op)|, 1000 + |Encode(op)|, 0, {"", Encode(op)},
            (s: string) => if s == "" then Digits('0') else Digits('1'),
            (m: Manifest) => Encode(m.operation), (m: Manifest) => "", (text: string, metadata: string) => 0)
  }

  lemma {:induction false} SmallSensible(op: Operation)
    ensures Sensible(SmallSetting(op))
  {
    var st := SmallSetting(op);
    forall m
      ensures Decode(st.serialize(m)) == m.operation
    {
      DecodesBack(m.operation);
    }
    assert Shows(Decode, st.serialize);
  }

  lemma {:induction false} LeadsThrough(st: Setting, s: Store, a: Event, b: Event, c: Event)
    requires Sensible(st) && Enabled(st, s, a) && Enabled(st, Apply(st, s, a), b)
    requires Enabled(st, Apply(st, Apply(st, s, a), b), c)
    ensures Leads(st, s, [a, b, c], Apply(st, Apply(st, Apply(st, s, a), b), c))
  {
    hide Sensible, Enabled, Apply;
    assert [a, b, c][1..] == [b, c] && [b, c][1..] == [c] && [c][1..] == [];
    var t := Apply(st, Apply(st, s, a), b);
    assert Leads(st, Apply(st, t, c), [], Apply(st, t, c));
    assert Leads(st, t, [c], Apply(st, t, c));
    assert Leads(st, Apply(st, s, a), [b, c], Apply(st, t, c));
  }

  /** Some setting meets the hypothesis, and in it a result is retained and resolves. */
  lemma {:induction false} SomeRunResolves(op: Operation)
    ensures exists st, events, t, uri ::
              && Sensible(st) && Known(st, map[]) && Sound(st, Empty(map[])) && Leads(st, Empty(map[]), events, t)
              && Faithful(st, t.tree) && Resolvable(st, t, uri, op.runId)
  {
    SmallSensible(op);
    var st, s := SmallSetting(op), Empty(map[]);
    var rq := Request(op, "tool", "{}", "", false, 0);
    var s1 := Apply(st, s, Reserve(rq, true, true));
    var s2 := Apply(st, s1, Describe(0, true, true));
    var s3 := Apply(st, s2, Publish(0, true));
    var events := [Reserve(rq, true, true), Describe(0, true, true), Publish(0, true)];
    LeadsThrough(st, s, events[0], events[1], events[2]);
    RunKeepsFiles(st, s, events, s3, "");
    var uri := ReferenceUri(st, s1.frames[0].manifest);
    assert Resolvable(st, s3, uri, op.runId);
  }
}
