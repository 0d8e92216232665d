/** The store of one task at work: its methods, split where they await, and file imports. */
module ResultStoreTask {
  import opened Common
  import opened CasUri
  import opened ResultStore

  /** Follows `Leads` when a second stretch of events comes after a first. */
  lemma {:induction false} LeadsOn(
    st: Setting, s: Store, first: seq<Event>, m: Store, second: seq<Event>, t: Store)
    requires Sensible(st) && Leads(st, s, first, m) && Leads(st, m, second, t)
    ensures Leads(st, s, first + second, t)
    decreases |first|
  {
    if first == [] {
      assert first + second == second;
    } else {
      assert (first + second)[1..] == first[1..] + second;
      LeadsOn(st, Apply(st, s, first[0]), first[1..], m, second, t);
    }
  }

  lemma {:induction false} LeadsOne(st: Setting, s: Store, e: Event)
    requires Sensible(st) && Enabled(st, s, e)
    ensures Leads(st, s, [e], Apply(st, s, e))
  {
    assert [e][1..] == [];
  }

  /** No event of the others works on a frame that is not theirs. */
  predicate Theirs(e: Event, mine: Option<nat>) {
    match e
    case Reserve(_, _, _) => true
    case Describe(k, _, _) => mine != Some(k)
    case Publish(k, _) => mine != Some(k)
  }

  /** Whatever others do, a frame that is not theirs stays as it is. */
  lemma {:induction false} MineStays(st: Setting, s: Store, e: Event, mine: nat)
    requires Sensible(st) && Enabled(st, s, e) && Theirs(e, Some(mine)) && mine < |s.frames|
    ensures mine < |Apply(st, s, e).frames| && Apply(st, s, e).frames[mine] == s.frames[mine]
  {
  }

  // ---------------------------------------------------------------- imported files

  datatype ImportRequest = ImportRequest(uri: string, path: string)

  datatype File = File(path: string, content: string)

  function ContentBytes(files: seq<File>): nat {
    if files == [] then 0
    else ContentBytes(files[..|files| - 1]) + |files[|files| - 1].content|
  }

  /** Two files hold what a request refers to. */
  ghost predicate Imported(
    st: Setting, s: Store, rq: ImportRequest, validName: string -> Option<string>, content: File, source: File)
  {
    && validName(rq.path) == Some(content.path) && source.path == content.path + ".source.json"
    && exists m :: Retained(st, s, rq.uri, content.content, m) && source.content == st.metadata(m)
  }

  /** The files hold the requests in order, two for each. */
  ghost predicate AllImported(
    st: Setting, s: Store, requests: seq<ImportRequest>, validName: string -> Option<string>, files: seq<File>)
  {
    && |files| == 2 * |requests|
    && (requests != [] ==>
          var n := |requests| - 1;
          && AllImported(st, s, requests[..n], validName, files[..2 * n])
          && Imported(st, s, requests[n], validName, files[2 * n], files[2 * n + 1]))
  }

  ghost predicate AllPathsDiffer(files: seq<File>) {
    forall i, j :: 0 <= i < j < |files| ==> files[i].path != files[j].path
  }

  lemma {:induction false} ImportedStays(
    st: Setting, s: Store, events: seq<Event>, t: Store,
    rq: ImportRequest, validName: string -> Option<string>, content: File, source: File)
    requires Sensible(st) && Sound(st, s) && Leads(st, s, events, t)
    requires Imported(st, s, rq, validName, content, source)
    ensures Imported(st, t, rq, validName, content, source)
  {
    var m :| Retained(st, s, rq.uri, content.content, m) && source.content == st.metadata(m);
    ReferencesStay(st, s, events, t, rq.uri, content.content, m);
  }

  lemma {:induction false} AllImportedStay(
    st: Setting, s: Store, events: seq<Event>, t: Store,
    requests: seq<ImportRequest>, validName: string -> Option<string>, files: seq<File>)
    requires Sensible(st) && Sound(st, s) && Leads(st, s, events, t)
    requires AllImported(st, s, requests, validName, files)
    ensures AllImported(st, t, requests, validName, files)
    decreases |requests|
  {
    hide Sensible, Sound, Leads, Imported;
    if requests != [] {
      var n := |requests| - 1;
      AllImportedStay(st, s, events, t, requests[..n], validName, files[..2 * n]);
      ImportedStays(st, s, events, t, requests[n], validName, files[2 * n], files[2 * n + 1]);
    }
  }

  lemma {:induction false} ImportedAppend(
    st: Setting, s: Store, requests: seq<ImportRequest>, rq: ImportRequest,
    validName: string -> Option<string>, files: seq<File>, content: File, source: File)
    requires AllImported(st, s, requests, validName, files)
    requires Imported(st, s, rq, validName, content, source)
    ensures AllImported(st, s, requests + [rq], validName, files + [content, source])
  {
    var longer := files + [content, source];
    assert (requests + [rq])[..|requests|] == requests && longer[..|files|] == files;
  }

  lemma {:induction false} ContentAppend(files: seq<File>, content: File, source: File)
    ensures ContentBytes(files + [content, source])
         == ContentBytes(files) + |content.content| + |source.content|
  {
    var longer := files + [content, source];
    assert longer[..|longer| - 1] == files + [content];
    assert (files + [content])[..|files|] == files;
  }

  lemma {:induction false} TakeOne<T>(s: seq<T>, i: nat)
    requires i < |s|
    ensures s[..i + 1] == s[..i] + [s[i]]
  {
  }

  lemma {:induction false} PathsAppend(files: seq<File>, content: File, source: File, paths: set<string>)
    requires AllPathsDiffer(files) && forall f :: f in files ==> f.path in paths
    requires content.path !in paths && source.path !in paths && |source.path| > |content.path|
    ensures AllPathsDiffer(files + [content, source])
  {
    forall i | 0 <= i < |files|
      ensures files[i].path != content.path && files[i].path != source.path
    {
      assert files[i] in files;
    }
  }

  /** What an import has done with the requests so far. */
  ghost predicate Importing(
    st: Setting, s: Store, requests: seq<ImportRequest>, validName: string -> Option<string>,
    files: seq<File>, paths: set<string>)
  {
    && AllImported(st, s, requests, validName, files) && AllPathsDiffer(files)
    && forall f :: f in files ==> f.path in paths
  }

  lemma {:induction false} ImportGrows(
    st: Setting, s: Store, events: seq<Event>, t: Store, requests: seq<ImportRequest>, i: nat,
    validName: string -> Option<string>, files: seq<File>, paths: set<string>, content: File, source: File)
    requires Sensible(st) && Sound(st, s) && Leads(st, s, events, t) && i < |requests|
    requires Importing(st, s, requests[..i], validName, files, paths)
    requires Imported(st, t, requests[i], validName, content, source)
    requires content.path !in paths && source.path !in paths
    ensures Importing(st, t, requests[..i + 1], validName, files + [content, source],
                      paths + {content.path, source.path})
    ensures ContentBytes(files + [content, source])
         == ContentBytes(files) + |content.content| + |source.content|
  {
    hide Sensible, Sound, Leads, AllImported, ContentBytes;
    AllImportedStay(st, s, events, t, requests[..i], validName, files);
    ImportedAppend(st, t, requests[..i], requests[i], validName, files, content, source);
    ContentAppend(files, content, source);
    PathsAppend(files, content, source, paths);
    TakeOne(requests, i);
  }

  // ---------------------------------------------------------------- what an import must give

  /** A reference belongs to one request only. */
  lemma {:induction false} BacksOnce(st: Setting, s: Store, uri: string, j: nat, k: nat)
    requires Sensible(st) && Sound(st, s) && Backs(st, s, uri, j) && Backs(st, s, uri, k)
    ensures j == k
  {
    assert FrameSound(st, s, s.frames[j]) && FrameSound(st, s, s.frames[k]);
    assert s.frames[j].request.operation == s.frames[k].request.operation;
  }

  /** The request a reference was issued for. */
  ghost function RequestOf(st: Setting, s: Store, uri: string): Request
    requires Accountable(st, s) && uri in s.issued
  {
    var k: nat :| Backs(st, s, uri, k);
    s.frames[k].request
  }

  lemma {:induction false} RetainedIsRequest(st: Setting, s: Store, uri: string, text: string, m: Manifest)
    requires Sensible(st) && Sound(st, s) && Retained(st, s, uri, text, m)
    ensures uri in s.issued && m == s.issued[uri] && text == RequestOf(st, s, uri).text
  {
    hide Sensible, Sound, Describes;
    var j: nat :| Backs(st, s, uri, j) && s.frames[j].manifest == m && s.frames[j].request.text == text;
    assert Accountable(st, s) by {
      SoundAccounts(st, s);
    }
    var k: nat :| Backs(st, s, uri, k) && s.frames[k].request == RequestOf(st, s, uri);
    BacksOnce(st, s, uri, j, k);
  }

  lemma {:induction false} SoundAccounts(st: Setting, s: Store)
    requires Sensible(st) && Sound(st, s)
    ensures Accountable(st, s)
  {
  }

  /** The two files a request asks for: the retained text, and what is known of it. */
  ghost function Content(st: Setting, s: Store, rq: ImportRequest, path: string): File
    requires Accountable(st, s) && rq.uri in s.issued
  {
    File(path, RequestOf(st, s, rq.uri).text)
  }

  function Source(st: Setting, s: Store, rq: ImportRequest, path: string): File
    requires rq.uri in s.issued
  {
    File(path + ".source.json", st.metadata(s.issued[rq.uri]))
  }

  /** Every reference resolves for this run, and every path is valid. */
  ghost predicate AllResolvable(
    st: Setting, s: Store, requests: seq<ImportRequest>, runId: string, validName: string -> Option<string>)
  {
    forall rq :: rq in requests ==> Resolvable(st, s, rq.uri, runId) && validName(rq.path).Some?
  }

  ghost function AllFiles(
    st: Setting, s: Store, requests: seq<ImportRequest>, runId: string, validName: string -> Option<string>)
    : seq<File>
    requires Accountable(st, s) && AllResolvable(st, s, requests, runId, validName)
  {
    if requests == [] then []
    else
      var n := |requests| - 1;
      var rq, path := requests[n], validName(requests[n].path).value;
      AllFiles(st, s, requests[..n], runId, validName) + [Content(st, s, rq, path), Source(st, s, rq, path)]
  }

  /** No path stands for two files. */
  ghost predicate NoClash(requests: seq<ImportRequest>, validName: string -> Option<string>) {
    forall i, j :: 0 <= i < j < |requests| && validName(requests[i].path).Some? && validName(requests[j].path).Some? ==>
      var a, b := validName(requests[i].path).value, validName(requests[j].path).value;
      a != b && a + ".source.json" != b && a != b + ".source.json"
  }

  /** A path one of the two files of a request goes to. */
  predicate GoesTo(rq: ImportRequest, p: string, validName: string -> Option<string>) {
    && validName(rq.path).Some?
    && (p == validName(rq.path).value || p == validName(rq.path).value + ".source.json")
  }

  /** Only the requests so far have taken paths. */
  ghost predicate TakenBy(paths: set<string>, requests: seq<ImportRequest>, validName: string -> Option<string>) {
    forall p :: p in paths ==> exists rq :: rq in requests && GoesTo(rq, p, validName)
  }

  lemma {:induction false} PathIsFree(
    paths: set<string>, requests: seq<ImportRequest>, i: nat, validName: string -> Option<string>, p: string)
    requires i < |requests| && NoClash(requests, validName) && TakenBy(paths, requests[..i], validName)
    requires GoesTo(requests[i], p, validName)
    ensures p !in paths
  {
    if p in paths {
      var rq :| rq in requests[..i] && GoesTo(rq, p, validName);
      var j :| 0 <= j < i && requests[j] == rq;
      SameStem(validName(requests[i].path).value, validName(requests[j].path).value);
      assert false;
    }
  }

  lemma {:induction false} SameStem(a: string, b: string)
    ensures a + ".source.json" == b + ".source.json" ==> a == b
  {
    if a + ".source.json" == b + ".source.json" {
      assert (a + ".source.json")[..|a|] == a && (b + ".source.json")[..|b|] == b;
    }
  }

  lemma {:induction false} AllFilesNext(
    st: Setting, s: Store, requests: seq<ImportRequest>, i: nat, runId: string, validName: string -> Option<string>)
    requires Accountable(st, s) && AllResolvable(st, s, requests, runId, validName) && i < |requests|
    ensures AllResolvable(st, s, requests[..i], runId, validName)
    ensures AllResolvable(st, s, requests[..i + 1], runId, validName)
    ensures var rq, path := requests[i], validName(requests[i].path).value;
            AllFiles(st, s, requests[..i + 1], runId, validName)
            == AllFiles(st, s, requests[..i], runId, validName) + [Content(st, s, rq, path), Source(st, s, rq, path)]
  {
    assert requests[..i + 1][..i] == requests[..i] && requests[i] in requests;
  }

  /** A beginning of an import is no larger than all of it. */
  lemma {:induction false} FewerBytes(
    st: Setting, s: Store, requests: seq<ImportRequest>, i: nat, runId: string, validName: string -> Option<string>)
    requires Accountable(st, s) && AllResolvable(st, s, requests, runId, validName) && i <= |requests|
    ensures AllResolvable(st, s, requests[..i], runId, validName)
    ensures ContentBytes(AllFiles(st, s, requests[..i], runId, validName))
         <= ContentBytes(AllFiles(st, s, requests, runId, validName))
    decreases |requests| - i
  {
    if i == |requests| {
      assert requests[..i] == requests;
    } else {
      hide AllFiles, ContentBytes, Content, Source, Accountable;
      FewerBytes(st, s, requests, i + 1, runId, validName);
      AllFilesNext(st, s, requests, i, runId, validName);
      assert requests[i] in requests;
      var rq, path := requests[i], validName(requests[i].path).value;
      ContentAppend(AllFiles(st, s, requests[..i], runId, validName),
                    Content(st, s, rq, path), Source(st, s, rq, path));
    }
  }

  /** Nothing stands in the way of an import: its references, its paths and its sizes are in order. */
  ghost predicate Importable(
    st: Setting, s: Store, requests: seq<ImportRequest>, runId: string, validName: string -> Option<string>,
    wireBytes: seq<File> -> nat)
  {
    && requests != [] && Accountable(st, s) && Faithful(st, s.tree)
    && AllResolvable(st, s, requests, runId, validName) && NoClash(requests, validName)
    && ContentBytes(AllFiles(st, s, requests, runId, validName)) <= st.maxBytes
    && wireBytes(AllFiles(st, s, requests, runId, validName)) <= Min(st.maxBytes, st.bodyLimit)
  }

  /** What such an import has done with the requests so far. */
  ghost predicate Smooth(
    st: Setting, s: Store, requests: seq<ImportRequest>, runId: string, validName: string -> Option<string>,
    files: seq<File>, paths: set<string>)
  {
    && Accountable(st, s) && AllResolvable(st, s, requests, runId, validName)
    && TakenBy(paths, requests, validName) && files == AllFiles(st, s, requests, runId, validName)
  }

  lemma {:induction false} NothingYet(st: Setting, s: Store, runId: string, validName: string -> Option<string>)
    requires Sensible(st) && Sound(st, s)
    ensures Accountable(st, s) && Smooth(st, s, [], runId, validName, [], {})
    ensures Importing(st, s, [], validName, [], {}) && ContentBytes([]) == 0
  {
  }

  /** When all requests are through, all their files are there. */
  lemma {:induction false} ImportEnds(
    st: Setting, s: Store, t: Store, requests: seq<ImportRequest>, runId: string, validName: string -> Option<string>,
    wireBytes: seq<File> -> nat, files: seq<File>, paths: set<string>)
    requires Importing(st, t, requests[..|requests|], validName, files, paths)
    ensures AllImported(st, t, requests, validName, files) && AllPathsDiffer(files)
    ensures Importable(st, s, requests, runId, validName, wireBytes)
            && Smooth(st, s, requests[..|requests|], runId, validName, files, paths) ==>
              files == AllFiles(st, s, requests, runId, validName)
              && wireBytes(files) <= Min(st.maxBytes, st.bodyLimit)
  {
    hide AllImported, AllPathsDiffer, NoClash, TakenBy, ContentBytes, AllFiles;
    assert requests[..|requests|] == requests;
  }

  /** Its next request can be imported. */
  lemma {:induction false} NextIsFree(
    st: Setting, s: Store, requests: seq<ImportRequest>, i: nat, runId: string, validName: string -> Option<string>,
    wireBytes: seq<File> -> nat, files: seq<File>, paths: set<string>)
    requires Importable(st, s, requests, runId, validName, wireBytes) && i < |requests|
    requires Smooth(st, s, requests[..i], runId, validName, files, paths)
    ensures Accountable(st, s) && Faithful(st, s.tree) && requests[i].uri in s.issued
    ensures Resolvable(st, s, requests[i].uri, runId) && validName(requests[i].path).Some?
    ensures var path := validName(requests[i].path).value; path !in paths && path + ".source.json" !in paths
  {
    assert requests[i] in requests;
    PathIsFree(paths, requests, i, validName, validName(requests[i].path).value);
    PathIsFree(paths, requests, i, validName, validName(requests[i].path).value + ".source.json");
  }

  /** And leaves everything in order. */
  lemma {:induction false} SmoothNext(
    st: Setting, s: Store, requests: seq<ImportRequest>, i: nat, runId: string, validName: string -> Option<string>,
    wireBytes: seq<File> -> nat, files: seq<File>, paths: set<string>, content: File, source: File)
    requires Importable(st, s, requests, runId, validName, wireBytes) && i < |requests|
    requires Smooth(st, s, requests[..i], runId, validName, files, paths)
    requires requests[i].uri in s.issued && validName(requests[i].path).Some?
    requires content == Content(st, s, requests[i], validName(requests[i].path).value)
    requires source == Source(st, s, requests[i], validName(requests[i].path).value)
    ensures Smooth(st, s, requests[..i + 1], runId, validName, files + [content, source],
                   paths + {content.path, source.path})
    ensures ContentBytes(files + [content, source]) <= st.maxBytes
  {
    hide Accountable, Faithful, Resolvable, AllFiles, ContentBytes, NoClash;
    FewerBytes(st, s, requests, i + 1, runId, validName);
    AllFilesNext(st, s, requests, i, runId, validName);
    var taken := paths + {content.path, source.path};
    forall p | p in taken
      ensures exists rq :: rq in requests[..i + 1] && GoesTo(rq, p, validName)
    {
      if p in paths {
        var rq :| rq in requests[..i] && GoesTo(rq, p, validName);
        assert rq in requests[..i + 1];
      } else {
        assert requests[i] in requests[..i + 1] && GoesTo(requests[i], p, validName);
      }
    }
  }

  /** Publishing a described frame makes its reference stand for its request. */
  lemma {:induction false} PublishStands(st: Setting, s: Store, k: nat)
    requires Sensible(st) && Enabled(st, s, Publish(k, true)) && Sound(st, Apply(st, s, Publish(k, true)))
    ensures StandsFor(st, Apply(st, s, Publish(k, true)), ReferenceUri(st, s.frames[k].manifest), s.frames[k].request)
  {
    hide Total, Accountable, OneFrameEach, Known;
    var t := Apply(st, s, Publish(k, true));
    assert FrameSound(st, t, t.frames[k]);
    assert Backs(st, t, ReferenceUri(st, s.frames[k].manifest), k);
  }

  class TaskStore {
    const st: Setting
    var tree: Tree
    var issued: map<string, Manifest>
    var usedBytes: nat
    var issuedOperations: set<Operation>
    var ambiguousOperations: set<Operation>
    var frames: seq<Frame>

    /** All of the store as one value. */
    function State(): Store
      reads this
    {
      Store(tree, issued, usedBytes, issuedOperations, ambiguousOperations, frames)
    }

    constructor (st: Setting, tree: Tree)
      ensures this.st == st && State() == Empty(tree)
    {
      this.st, this.tree := st, tree;
      issued, usedBytes, frames := map[], 0, [];
      issuedOperations, ambiguousOperations := {}, {};
    }

    /** `PvcCasBackend.write`, where the disk may fail. */
    method WriteBlob(bytes: string, disk: bool) returns (ok: bool)
      requires Sensible(st)
      modifies this`tree
      ensures ok == disk && tree == if disk then Write(st, old(tree), bytes) else old(tree)
    {
      ok := disk;
      if disk {
        var path := ShardPath(st.root, st.hash(bytes));
        if path !in tree {
          tree := tree[path := bytes];
        }
      }
    }

    /** From the start of `retain` to its first await: identity and bytes are reserved before any I/O. */
    method Begin(rq: Request, alive: bool, disk: bool) returns (frame: Option<nat>)
      requires Sensible(st) && Occurs(st, rq)
      modifies this
      ensures State() == Apply(st, old(State()), Reserve(rq, alive, disk))
      ensures frame.Some? ==> alive && disk && rq.operation !in old(issuedOperations)
      ensures var m := ManifestOf(st, rq);
              var fits :=
                && |rq.text| <= st.maxBytes && |st.serialize(m)| <= st.maxBytes
                && |rq.text| + |st.metadata(m)| <= st.maxBytes
                && st.wire(rq.text, st.metadata(m)) <= st.maxBytes
                && st.wire(rq.text, st.metadata(m)) <= st.bodyLimit
                && old(usedBytes) + |rq.text| + |st.serialize(m)| <= st.maxTotalBytes;
              && (frame.Some? ==> fits)
              && (alive && disk && rq.operation !in old(issuedOperations) && fits ==> frame.Some?)
              && (alive && rq.operation !in old(issuedOperations) && fits ==>
                    && usedBytes == old(usedBytes) + |rq.text| + |st.serialize(m)|
                    && issuedOperations == old(issuedOperations) + {rq.operation})
              && (!alive || (rq.operation !in old(issuedOperations) && !fits) ==> State() == old(State()))
      ensures frame.Some? ==>
                && frame.value == |old(frames)| && |frames| == frame.value + 1
                && frames[frame.value] == Frame(rq, ManifestOf(st, rq), Written)
      ensures alive && rq.operation in old(issuedOperations) ==> rq.operation in ambiguousOperations
    {
      if !alive {
        return None;
      }
      if rq.operation in issuedOperations {
        ambiguousOperations := ambiguousOperations + {rq.operation};
        return None;
      }
      var m := ManifestOf(st, rq);
      if !Admissible(st, usedBytes, rq.text, m) {
        return None;
      }
      issuedOperations := issuedOperations + {rq.operation};
      usedBytes := usedBytes + Cost(st, rq.text, m);
      var ok := WriteBlob(rq.text, disk);
      frame := if ok then Some(|frames|) else None;
      frames := frames + [Frame(rq, m, if ok then Written else Failed)];
    }

    /** Between the two awaits: the manifest is stored beside the content. */
    method Continue(k: nat, alive: bool, disk: bool) returns (ok: bool)
      requires Sensible(st) && Enabled(st, State(), Describe(k, alive, disk))
      modifies this`tree, this`frames
      ensures State() == Apply(st, old(State()), Describe(k, alive, disk)) && ok == (alive && disk)
      ensures ok ==> frames == old(frames)[k := old(frames)[k].(stage := Described)]
    {
      ok := false;
      if alive {
        ok := WriteBlob(st.serialize(frames[k].manifest), disk);
      }
      frames := frames[k := frames[k].(stage := if ok then Described else Failed)];
    }

    /** Behind the second await: the reference is issued. */
    method Finish(k: nat, alive: bool) returns (uri: Option<string>)
      requires Sensible(st) && Enabled(st, State(), Publish(k, alive))
      modifies this`issued, this`frames
      ensures State() == Apply(st, old(State()), Publish(k, alive))
      ensures uri == if alive then Some(ReferenceUri(st, old(frames)[k].manifest)) else None
    {
      uri := None;
      if alive {
        uri := Some(ReferenceUri(st, frames[k].manifest));
        issued := issued[uri.value := frames[k].manifest];
      }
      frames := frames[k := frames[k].(stage := if alive then Issued else Failed)];
    }

    /** One piece of some other `retain` call. */
    method Step(e: Event)
      requires Sensible(st) && Enabled(st, State(), e)
      modifies this
      ensures State() == Apply(st, old(State()), e)
    {
      match e {
        case Reserve(rq, alive, disk) => var _ := Begin(rq, alive, disk);
        case Describe(k, alive, disk) => var _ := Continue(k, alive, disk);
        case Publish(k, alive) => var _ := Finish(k, alive);
      }
    }

    /** What other `retain` calls do while this one awaits. */
    method Others(events: seq<Event>, mine: Option<nat>) returns (ghost done: seq<Event>)
      requires Sensible(st) && (mine.Some? ==> mine.value < |frames|)
      modifies this
      ensures Leads(st, old(State()), done, State())
      ensures events == [] ==> State() == old(State())
      ensures mine.Some? ==> mine.value < |frames| && frames[mine.value] == old(frames)[mine.value]
      ensures events != [] && Enabled(st, old(State()), events[0])
              && (!events[0].Reserve? ==> mine != Some(events[0].frame)) ==>
                done != [] && done[0] == events[0]
    {
      done := [];
      var i := 0;
      while i < |events|
        invariant 0 <= i <= |events| && Leads(st, old(State()), done, State())
        invariant i == 0 ==> State() == old(State()) && done == []
        invariant i > 0 && Enabled(st, old(State()), events[0])
                  && (!events[0].Reserve? ==> mine != Some(events[0].frame)) ==>
                    done != [] && done[0] == events[0]
        invariant mine.Some? ==> mine.value < |frames| && frames[mine.value] == old(frames)[mine.value]
      {
        if Enabled(st, State(), events[i]) && Theirs(events[i], mine) {
          ghost var before := State();
          if mine.Some? {
            MineStays(st, before, events[i], mine.value);
          }
          LeadsOne(st, before, events[i]);
          Step(events[i]);
          LeadsOn(st, old(State()), done, before, [events[i]], State());
          done := done + [events[i]];
        }
        i := i + 1;
      }
    }

    /** Between its awaits `retain` lets the others run; its reservation is still its own. */
    method Retain(rq: Request, alive: nat -> bool, disk: nat -> bool, others: nat -> seq<Event>)
      returns (uri: Option<string>)
      requires Sensible(st) && Sound(st, State()) && Occurs(st, rq)
      modifies this
      ensures Sound(st, State())
      ensures uri.Some? ==>
                && rq.operation !in old(issuedOperations)
                && StandsFor(st, State(), uri.value, rq)
      ensures rq.operation in old(issuedOperations) && alive(0) ==>
                uri.None? && rq.operation in ambiguousOperations
      ensures var serialized, metadata := st.serialize(ManifestOf(st, rq)), st.metadata(ManifestOf(st, rq));
              (rq.operation !in old(issuedOperations)
               && |rq.text| + |metadata| <= st.maxBytes && |serialized| <= st.maxBytes
               && st.wire(rq.text, metadata) <= Min(st.maxBytes, st.bodyLimit)
               && old(usedBytes) + |rq.text| + |serialized| <= st.maxTotalBytes
               && alive(0) && alive(1) && alive(2) && disk(0) && disk(1)) ==> uri.Some?
    {
      hide Apply, Sound, Sensible, StandsFor, ManifestOf;
      var frame := Begin(rq, alive(0), disk(0));
      StepKeepsSound(st, old(State()), Reserve(rq, alive(0), disk(0)));
      if frame.None? {
        return None;
      }
      ghost var s1 := State();
      ghost var first := Others(others(0), frame);
      AlwaysSound(st, s1, first, State());
      ghost var s2 := State();
      var ok := Continue(frame.value, alive(1), disk(1));
      StepKeepsSound(st, s2, Describe(frame.value, alive(1), disk(1)));
      if !ok {
        return None;
      }
      ghost var s3 := State();
      ghost var second := Others(others(1), frame);
      AlwaysSound(st, s3, second, State());
      ghost var s4 := State();
      uri := Finish(frame.value, alive(2));
      StepKeepsSound(st, s4, Publish(frame.value, alive(2)));
      if uri.Some? {
        PublishStands(st, s4, frame.value);
      }
    }

    /** A resolution with the others running while it awaits its two reads. */
    method Resolve(uri: string, runId: string, alive: nat -> bool, others: nat -> seq<Event>)
      returns (r: Option<Resolved>, ghost done: seq<Event>)
      requires Sensible(st) && Sound(st, State())
      modifies this
      ensures Sound(st, State()) && Leads(st, old(State()), done, State())
      ensures r.Some? ==>
                && r.value.uri == uri && Retained(st, State(), uri, r.value.content, r.value.manifest)
                && r.value.manifest.operation.runId == runId
                && r.value.manifest.operation !in old(ambiguousOperations)
      ensures (Faithful(st, old(tree)) && Resolvable(st, old(State()), uri, runId)
               && alive(0) && alive(1) && alive(2)) ==> r.Some?
      ensures others(0) == [] && others(1) == [] ==> State() == old(State())
    {
      hide Sound, Read;
      ghost var s1 := State();
      if Faithful(st, s1.tree) && Resolvable(st, s1, uri, runId) {
        ResolvesAlways(st, s1, [], s1, uri, runId);
      }
      var found := Lookup(st, State(), uri, runId, alive(0));
      if found.None? {
        return None, [];
      }
      var m, stored := found.value.0, found.value.1;
      done := Others(others(0), None);
      AlwaysSound(st, s1, done, State());
      if Faithful(st, s1.tree) && Resolvable(st, s1, uri, runId) {
        ResolvesAlways(st, s1, done, State(), uri, runId);
      }
      var data := Load(st, State(), m, stored, alive(1));
      if data.None? {
        return None, done;
      }
      ghost var s2 := State();
      ghost var second := Others(others(1), None);
      AlwaysSound(st, s2, second, State());
      LeadsOn(st, s1, done, s2, second, State());
      r := Deliver(st, m, uri, data.value, alive(2));
      if r.Some? {
        ResolvesExactly(st, s1, s2, uri, runId, alive(0), alive(1), alive(2), m, stored, data.value);
        ReferencesStay(st, s1, done + second, State(), uri, data.value, m);
      }
      done := done + second;
    }

    /** One request of an import: its path must be new, and its reference must resolve. */
    method ImportOne(
      rq: ImportRequest, runId: string, validName: string -> Option<string>, paths: set<string>,
      alive: nat -> bool, others: nat -> seq<Event>)
      returns (files: Option<(File, File)>, ghost done: seq<Event>)
      requires Sensible(st) && Sound(st, State())
      modifies this
      ensures Sound(st, State()) && Leads(st, old(State()), done, State())
      ensures files.Some? ==>
                && Imported(st, State(), rq, validName, files.value.0, files.value.1)
                && files.value.0.path !in paths && files.value.1.path !in paths
      ensures others(0) == [] && others(1) == [] ==> State() == old(State())
      ensures (Faithful(st, old(tree)) && Resolvable(st, old(State()), rq.uri, runId)
               && alive(0) && alive(1) && alive(2) && others(0) == [] && others(1) == []
               && validName(rq.path).Some? && validName(rq.path).value !in paths
               && validName(rq.path).value + ".source.json" !in paths) ==>
                files == Some((Content(st, old(State()), rq, validName(rq.path).value),
                               Source(st, old(State()), rq, validName(rq.path).value)))
    {
      done := [];
      var path := validName(rq.path);
      if path.None? || path.value in paths || path.value + ".source.json" in paths {
        return None, [];
      }
      var resolved;
      resolved, done := Resolve(rq.uri, runId, alive, others);
      if resolved.None? {
        return None, done;
      }
      files := Some((File(path.value, resolved.value.content),
                     File(path.value + ".source.json", st.metadata(resolved.value.manifest))));
      RetainedIsRequest(st, State(), rq.uri, resolved.value.content, resolved.value.manifest);
    }

    /** The next request of an import, on top of the files so far; none if it must be refused. */
    method ImportNext(
      requests: seq<ImportRequest>, i: nat, runId: string, validName: string -> Option<string>,
      ghost wireBytes: seq<File> -> nat, files: seq<File>, paths: set<string>, size: nat,
      alive: nat -> bool, others: nat -> seq<Event>)
      returns (next: Option<(seq<File>, set<string>, nat)>)
      requires Sensible(st) && Sound(st, State()) && i < |requests|
      requires Importing(st, State(), requests[..i], validName, files, paths) && size == ContentBytes(files)
      modifies this
      ensures Sound(st, State())
      ensures next.Some? ==>
                var (files', paths', size') := next.value;
                && Importing(st, State(), requests[..i + 1], validName, files', paths')
                && size' == ContentBytes(files') <= st.maxBytes
      ensures Importable(st, old(State()), requests, runId, validName, wireBytes)
              && Smooth(st, old(State()), requests[..i], runId, validName, files, paths)
              && (forall k :: alive(k) && others(k) == []) ==>
                && State() == old(State()) && next.Some?
                && Smooth(st, State(), requests[..i + 1], runId, validName, next.value.0, next.value.1)
    {
      hide Sensible, Sound, Leads, Importable, Smooth, Importing, AllFiles, ContentBytes, Imported,
           AllImported, Accountable;
      ghost var before := State();
      ghost var smooth := Importable(st, before, requests, runId, validName, wireBytes)
                          && Smooth(st, before, requests[..i], runId, validName, files, paths)
                          && forall k :: alive(k) && others(k) == [];
      if smooth {
        NextIsFree(st, before, requests, i, runId, validName, wireBytes, files, paths);
      }
      var pair, done := ImportOne(requests[i], runId, validName, paths, alive, others);
      if pair.None? {
        return None;
      }
      var content, source := pair.value.0, pair.value.1;
      if smooth {
        SmoothNext(st, before, requests, i, runId, validName, wireBytes, files, paths, content, source);
      }
      ImportGrows(st, before, done, State(), requests, i, validName, files, paths, content, source);
      var size' := size + |content.content| + |source.content|;
      if size' > st.maxBytes {
        return None;
      }
      next := Some((files + [content, source], paths + {content.path, source.path}, size'));
    }

    /**
     * Resolves a list of references into files: each content under its path, and beside it
     * the metadata of its manifest. All paths differ, and the whole stays within the bounds.
     * Nothing is refused that is in order.
     */
    method ImportFiles(
      requests: seq<ImportRequest>, runId: string, validName: string -> Option<string>,
      wireBytes: seq<File> -> nat, alive: (nat, nat) -> bool, others: (nat, nat) -> seq<Event>)
      returns (result: Option<seq<File>>)
      requires Sensible(st) && Sound(st, State())
      modifies this
      ensures Sound(st, State())
      ensures result.Some? ==>
                && requests != [] && AllImported(st, State(), requests, validName, result.value)
                && AllPathsDiffer(result.value)
                && ContentBytes(result.value) <= st.maxBytes
                && wireBytes(result.value) <= Min(st.maxBytes, st.bodyLimit)
      ensures Importable(st, old(State()), requests, runId, validName, wireBytes)
              && (forall i, k :: alive(i, k) && others(i, k) == []) ==>
                result == Some(AllFiles(st, old(State()), requests, runId, validName))
    {
      hide Sensible, Sound, Smooth, Importing, AllFiles, ContentBytes, AllImported, AllPathsDiffer, AllResolvable,
           NoClash, Faithful;
      if !alive(0, 0) || requests == [] {
        return None;
      }
      var files: seq<File>, paths: set<string>, size := [], {}, 0;
      ghost var s0 := State();
      ghost var smooth := Importable(st, s0, requests, runId, validName, wireBytes)
                          && (forall i, k :: alive(i, k) && others(i, k) == []);
      NothingYet(st, s0, runId, validName);
      assert requests[..0] == [];
      var i := 0;
      while i < |requests|
        invariant 0 <= i <= |requests| && Sound(st, State())
        invariant Importing(st, State(), requests[..i], validName, files, paths)
        invariant size == ContentBytes(files) <= st.maxBytes
        invariant smooth ==> State() == s0 && Smooth(st, s0, requests[..i], runId, validName, files, paths)
      {
        var next := ImportNext(requests, i, runId, validName, wireBytes, files, paths, size,
                               (k: nat) => alive(i + 1, k), (k: nat) => others(i, k));
        if next.None? {
          return None;
        }
        files, paths, size := next.value.0, next.value.1, next.value.2;
        i := i + 1;
      }
      ImportEnds(st, s0, State(), requests, runId, validName, wireBytes, files, paths);
      result := if wireBytes(files) > Min(st.maxBytes, st.bodyLimit) then None else Some(files);
    }
  }
}
