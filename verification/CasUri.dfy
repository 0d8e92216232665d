/** Content-addressed names: URIs and the sharded paths behind them. */
module CasUri {
  import opened Common

  predicate HexDigit(c: char) {
    '0' <= c <= '9' || 'a' <= c <= 'f'
  }

  /** A lower-case hexadecimal SHA-256. */
  predicate Hex64(h: string) {
    |h| == 64 && forall i :: 0 <= i < |h| ==> HexDigit(h[i])
  }

  function LowerChar(c: char): char {
    if 'A' <= c <= 'Z' then (c as int + 32) as char else c
  }

  function Lower(s: string): string {
    seq(|s|, i requires 0 <= i < |s| => LowerChar(s[i]))
  }

  function IndexOf(s: string, c: char): (i: Option<nat>)
    ensures i.Some? ==> i.value < |s|
  {
    if s == "" then None
    else if s[0] == c then Some(0)
    else
      var more := IndexOf(s[1..], c);
      if more.None? then None else Some(more.value + 1)
  }

  function BuildUri(hash: string, name: string): string {
    "cas://sha256:" + hash + "/" + name
  }

  /** The hash and the name in a URI; none for anything malformed. */
  function ParseUri(uri: string): Option<(string, string)> {
    if !("cas://" <= uri) then None
    else
      var rest := uri[6..];
      match IndexOf(rest, '/')
      case None => None
      case Some(slash) =>
        var head, name := rest[..slash], rest[slash + 1..];
        if slash == 0 || name == "" then None
        else
          match IndexOf(head, ':')
          case None => None
          case Some(colon) =>
            var algo, hash := Lower(head[..colon]), Lower(head[colon + 1..]);
            if colon == 0 || algo != "sha256" || !Hex64(hash) then None else Some((hash, name))
  }

  lemma {:induction false} IndexOfFirst(a: string, c: char, b: string)
    requires forall i :: 0 <= i < |a| ==> a[i] != c
    ensures IndexOf(a + [c] + b, c) == Some(|a|)
  {
    var s := a + [c] + b;
    if a != "" {
      assert s[1..] == a[1..] + [c] + b;
      IndexOfFirst(a[1..], c, b);
    }
  }

  /** What `s` splits into at the first `c`. */
  lemma {:induction false} SplitAt(s: string, a: string, c: char, b: string)
    requires s == a + [c] + b && forall i :: 0 <= i < |a| ==> a[i] != c
    ensures IndexOf(s, c) == Some(|a|) && s[..|a|] == a && s[|a| + 1..] == b
  {
    IndexOfFirst(a, c, b);
  }

  lemma {:induction false} Behind(s: string, a: string, b: string)
    requires s == a + b
    ensures a <= s && s[|a|..] == b
  {
  }

  /** What stands in front of the hash in a URI, behind the scheme. */
  const HEAD := "sha256:"

  lemma {:induction false} HeadHasNoSlash(hash: string)
    requires Hex64(hash)
    ensures forall i :: 0 <= i < |HEAD + hash| ==> (HEAD + hash)[i] != '/'
  {
    forall i | 0 <= i < |HEAD + hash|
      ensures (HEAD + hash)[i] != '/'
    {
      assert i >= 7 ==> (HEAD + hash)[i] == hash[i - 7] && HexDigit(hash[i - 7]);
    }
  }

  /** Every URI that is built is read back to the same hash and name. */
  lemma {:induction false} UriRoundTrip(hash: string, name: string)
    requires Hex64(hash) && name != ""
    ensures ParseUri(BuildUri(hash, name)) == Some((hash, name))
  {
    hide IndexOf, Hex64;
    var uri := BuildUri(hash, name);
    var head := HEAD + hash;
    var rest := head + ['/'] + name;
    assert uri == "cas://" + rest;
    Behind(uri, "cas://", rest);
    HeadHasNoSlash(hash);
    SplitAt(rest, head, '/', name);
    assert head == "sha256" + [':'] + hash;
    SplitAt(head, "sha256", ':', hash);
    assert Lower("sha256") == "sha256";
    LowerHex(hash);
  }

  lemma {:induction false} LowerHex(hash: string)
    requires Hex64(hash)
    ensures Lower(hash) == hash
  {
    assert forall i :: 0 <= i < |hash| ==> HexDigit(hash[i]) && Lower(hash)[i] == hash[i];
  }

  /** The texts differ at most in the case of ASCII letters, and the second has them in lower case. */
  ghost predicate LowersTo(s: string, t: string) {
    && |s| == |t|
    && forall i :: 0 <= i < |s| ==>
         if s[i] in "ABCDEFGHIJKLMNOPQRSTUVWXYZ" then t[i] as int == s[i] as int + 'a' as int - 'A' as int
         else t[i] == s[i]
  }

  lemma {:induction false} LowersExactly(s: string, t: string)
    ensures Lower(s) == t <==> LowersTo(s, t)
  {
    if LowersTo(s, t) {
      assert forall i :: 0 <= i < |s| ==> Lower(s)[i] == t[i];
    }
  }

  /** The URI of a hash, with the algorithm and the digits in whatever case. */
  ghost predicate IsUri(uri: string, hash: string, name: string) {
    exists algo, digits ::
      && uri == "cas://" + algo + ":" + digits + "/" + name && name != ""
      && LowersTo(algo, "sha256") && LowersTo(digits, hash)
      && |hash| == 64 && forall i :: 0 <= i < |hash| ==> hash[i] in "0123456789abcdef"
  }

  lemma {:induction false} IndexOfIs(s: string, c: char)
    ensures var i := IndexOf(s, c);
            if i.Some? then s[i.value] == c && forall k :: 0 <= k < i.value ==> s[k] != c else c !in s
  {
    if s != "" && s[0] != c {
      IndexOfIs(s[1..], c);
    }
  }

  /** A URI is read to a hash and a name exactly if it is one of theirs, up to case. */
  lemma {:induction false} ParsesExactly(uri: string, hash: string, name: string)
    ensures ParseUri(uri) == Some((hash, name)) <==> IsUri(uri, hash, name)
  {
    if ParseUri(uri) == Some((hash, name)) {
      ParsedIsUri(uri, hash, name);
    }
    forall algo, digits | uri == "cas://" + algo + ":" + digits + "/" + name && name != ""
                          && LowersTo(algo, "sha256") && LowersTo(digits, hash) && Hex64(hash)
      ensures ParseUri(uri) == Some((hash, name))
    {
      UriIsParsed(algo, digits, hash, name);
    }
    assert Hex64(hash) <==> |hash| == 64 && forall i :: 0 <= i < |hash| ==> hash[i] in "0123456789abcdef";
  }

  lemma {:induction false} ParsedIsUri(uri: string, hash: string, name: string)
    requires ParseUri(uri) == Some((hash, name))
    ensures IsUri(uri, hash, name)
  {
    hide IndexOf, Lower, LowersTo, HexDigit;
    var rest := uri[6..];
    IndexOfIs(rest, '/');
    var slash := IndexOf(rest, '/').value;
    var head := rest[..slash];
    IndexOfIs(head, ':');
    var colon := IndexOf(head, ':').value;
    var algo, digits := head[..colon], head[colon + 1..];
    LowersExactly(algo, "sha256");
    LowersExactly(digits, hash);
    assert head == algo + ":" + digits && rest == head + "/" + name;
    assert uri == "cas://" + rest;
    assert "cas://" + rest == "cas://" + algo + ":" + digits + "/" + name;
    forall i | 0 <= i < |hash|
      ensures hash[i] in "0123456789abcdef"
    {
      HexDigitIs(hash[i]);
    }
  }

  lemma {:induction false} HexDigitIs(c: char)
    ensures HexDigit(c) <==> c in "0123456789abcdef"
  {
  }

  lemma {:induction false} UriIsParsed(algo: string, digits: string, hash: string, name: string)
    requires LowersTo(algo, "sha256") && LowersTo(digits, hash) && Hex64(hash) && name != ""
    ensures ParseUri("cas://" + algo + ":" + digits + "/" + name) == Some((hash, name))
  {
    var head := algo + ":" + digits;
    var rest := head + ['/'] + name;
    Behind("cas://" + rest, "cas://", rest);
    assert "cas://" + rest == "cas://" + algo + ":" + digits + "/" + name;
    forall i | 0 <= i < |head|
      ensures head[i] != '/'
    {
      assert i >= 7 ==> head[i] == digits[i - 7] && HexDigit(hash[i - 7]);
      assert i < 6 ==> head[i] == algo[i];
    }
    SplitAt(rest, head, '/', name);
    assert head == algo + [':'] + digits;
    assert forall i :: 0 <= i < 6 ==> algo[i] != ':';
    SplitAt(head, algo, ':', digits);
    LowersExactly(algo, "sha256");
    LowersExactly(digits, hash);
  }

  /** Where the bytes with a hash are stored. */
  function ShardPath(root: string, hash: string): string
    requires Hex64(hash)
  {
    root + "/cas/sha256/" + hash[..2] + "/" + hash[2..]
  }

  /** Different hashes are stored in different places. */
  lemma {:induction false} ShardInjective(root: string, a: string, b: string)
    requires Hex64(a) && Hex64(b) && ShardPath(root, a) == ShardPath(root, b)
    ensures a == b
  {
    var n := |root + "/cas/sha256/"|;
    var p := ShardPath(root, a);
    assert p[n..n + 2] == a[..2] && p[n + 3..] == a[2..];
    assert p[n..n + 2] == b[..2] && p[n + 3..] == b[2..];
    assert a == a[..2] + a[2..] && b == b[..2] + b[2..];
  }
}
