/** The storage key scheme of routes.js: every object of an account lives under
    its escaped email, the user record at "/user.json" and each persona at "/personas/<pid>". */
module Keys {
  import opened Basics
  import opened Strings
  import UriComponent

  /** The part of an address before its first "@" (the first element of `split('@')`). */
  function LocalPart(email: string): string {
    Split(email, '@')[0]
  }

  /** `escapeEmail`: `email.split('@').reduce(...)` without an initial value, so the
      first part is taken as it is and every later part is appended as "@" plus its
      encodeURIComponent; the "@" is dropped while the accumulated result is still empty. */
  function EscapeEmail(email: string): string {
    var parts := Split(email, '@');
    EscapeFold(parts[0], parts[1..])
  }

  /** The reducer of escapeEmail applied to the remaining parts. */
  function EscapeFold(acc: string, rest: seq<string>): string
    decreases |rest|
  {
    if rest == [] then acc
    else EscapeFold(acc + (if |acc| > 0 then "@" else "") + UriComponent.Encode(rest[0]), rest[1..])
  }

  /** The encodeURIComponent of every part. */
  function EncodeAll(parts: seq<string>): (r: seq<string>)
    ensures |r| == |parts|
    ensures forall i :: 0 <= i < |parts| ==> r[i] == UriComponent.Encode(parts[i])
    decreases |parts|
  {
    if parts == [] then [] else [UriComponent.Encode(parts[0])] + EncodeAll(parts[1..])
  }

  lemma JoinMergeHead(a: string, sep: char, b: string, xs: seq<string>)
    ensures Join([a + [sep] + b] + xs, sep) == a + [sep] + Join([b] + xs, sep)
  {
    if xs != [] {
      assert ([a + [sep] + b] + xs)[1..] == xs;
      assert ([b] + xs)[1..] == xs;
    }
  }

  /** Once the accumulator is non-empty, the reduction is the "@"-join of the
      accumulator and the encoded remaining parts. */
  lemma {:induction false} EscapeFoldJoin(acc: string, rest: seq<string>)
    requires |acc| > 0
    ensures EscapeFold(acc, rest) == Join([acc] + EncodeAll(rest), '@')
    decreases |rest|
  {
    if rest != [] {
      var e := UriComponent.Encode(rest[0]);
      EscapeFoldJoin(acc + "@" + e, rest[1..]);
      JoinMergeHead(acc, '@', e, EncodeAll(rest[1..]));
      assert [acc] + EncodeAll(rest) == [acc] + ([e] + EncodeAll(rest[1..]));
      assert [acc] + ([e] + EncodeAll(rest[1..])) == [acc, e] + EncodeAll(rest[1..]);
      assert Join([acc, e] + EncodeAll(rest[1..]), '@') == acc + "@" + Join([e] + EncodeAll(rest[1..]), '@') by {
        assert ([acc, e] + EncodeAll(rest[1..]))[1..] == [e] + EncodeAll(rest[1..]);
      }
    }
  }

  /** The reduction starts with its accumulator. */
  lemma {:induction false} EscapeFoldPrefix(acc: string, rest: seq<string>)
    ensures acc <= EscapeFold(acc, rest)
    decreases |rest|
  {
    if rest != [] {
      var next := acc + (if |acc| > 0 then "@" else "") + UriComponent.Encode(rest[0]);
      EscapeFoldPrefix(next, rest[1..]);
      assert acc <= next;
    }
  }

  /** The reduction adds no "/" of its own. */
  lemma {:induction false} EscapeFoldNoSlash(acc: string, rest: seq<string>)
    requires '/' !in acc
    ensures '/' !in EscapeFold(acc, rest)
    decreases |rest|
  {
    if rest != [] {
      EscapeFoldNoSlash(acc + (if |acc| > 0 then "@" else "") + UriComponent.Encode(rest[0]), rest[1..]);
    }
  }

  /** The escaped email contains "/" exactly when the local part does: the local part
      is the only segment that is not encoded. */
  lemma EscapeSlashFree(email: string)
    ensures '/' !in EscapeEmail(email) <==> '/' !in LocalPart(email)
  {
    var parts := Split(email, '@');
    if '/' in LocalPart(email) {
      EscapeFoldPrefix(parts[0], parts[1..]);
      var i :| 0 <= i < |parts[0]| && parts[0][i] == '/';
      assert EscapeEmail(email)[i] == '/';
    } else {
      EscapeFoldNoSlash(parts[0], parts[1..]);
    }
  }

  /** An address without "@" is its own key prefix, unencoded. */
  lemma EscapeWithoutAt(email: string)
    requires '@' !in email
    ensures EscapeEmail(email) == email
  {
    SplitSingle(email, '@');
  }

  /** With a non-empty local part, escapeEmail is injective. */
  lemma EscapeEmailInjective(a: string, b: string)
    requires LocalPart(a) != [] && LocalPart(b) != []
    requires EscapeEmail(a) == EscapeEmail(b)
    ensures a == b
  {
    var pa, pb := Split(a, '@'), Split(b, '@');
    var xa, xb := [pa[0]] + EncodeAll(pa[1..]), [pb[0]] + EncodeAll(pb[1..]);
    EscapeFoldJoin(pa[0], pa[1..]);
    EscapeFoldJoin(pb[0], pb[1..]);
    SplitJoin(xa, '@');
    SplitJoin(xb, '@');
    assert xa == xb;
    assert |pa| == |pb|;
    forall i | 1 <= i < |pa| ensures pa[i] == pb[i] {
      assert xa[i] == UriComponent.Encode(pa[i]) && xb[i] == UriComponent.Encode(pb[i]);
      UriComponent.EncodeInjective(pa[i], pb[i]);
    }
    assert pa == pb;
    JoinSplit(a, '@');
    JoinSplit(b, '@');
  }

  /** An empty local part drops its "@": "@b" and "b" share one key prefix. */
  lemma EmptyLocalPartCollides()
    ensures EscapeEmail("@b") == EscapeEmail("b") == "b"
  {
    SplitSingle("b", '@');
    SplitCons("", '@', "b");
    assert "" + ['@'] + "b" == "@b";
    assert UriComponent.Encode("b") == "b" by {
      assert UriComponent.Encode("b") == UriComponent.EncodeChar('b') + UriComponent.Encode([]);
    }
  }

  /** An empty local part drops its "@", and the "/" of the next segment is encoded, so
      the address "@a/b" has the escape of the address "a%2Fb". */
  lemma EncodedSlashCollides()
    ensures EscapeEmail("@a/b") == EscapeEmail("a%2Fb") == "a%2Fb"
  {
    EscapeWithoutAt("a%2Fb");
    SplitSingle("a/b", '@');
    SplitCons("", '@', "a/b");
    assert "" + ['@'] + "a/b" == "@a/b";
    EncodeSlashPath();
  }

  lemma EncodeSlashPath()
    ensures UriComponent.Encode("a/b") == "a%2Fb"
  {
    EncodeSlash();
    assert UriComponent.Encode("b") == UriComponent.EncodeChar('b') + UriComponent.Encode([]);
    assert UriComponent.Encode("/b") == UriComponent.EncodeChar('/') + UriComponent.Encode("b");
    assert UriComponent.Encode("a/b") == UriComponent.EncodeChar('a') + UriComponent.Encode("/b");
  }

  lemma EncodeSlash()
    ensures UriComponent.EncodeChar('/') == "%2F"
  {
    assert UriComponent.Utf8('/') == [0x2F];
    assert UriComponent.PercentAll([0x2F]) == UriComponent.Percent(0x2F) + UriComponent.PercentAll([]);
  }

  /** The user record of an account. */
  function UserKey(email: string): string {
    EscapeEmail(email) + "/user.json"
  }

  /** The prefix under which an account's personas are listed (no trailing "/"). */
  function PersonaPrefix(email: string): string {
    EscapeEmail(email) + "/personas"
  }

  /** The key of one persona of an account. */
  function PersonaKey(email: string, pid: string): string {
    EscapeEmail(email) + "/personas/" + pid
  }

  /** `key.split('/')[2]`, which is undefined when the key has fewer than three parts. */
  function PersonaId(key: string): Option<string> {
    var parts := Split(key, '/');
    if |parts| > 2 then Some(parts[2]) else None
  }

  /** A key of the shape the handlers write when the escaped email has no "/":
      "<x>/user.json" or "<x>/personas/<pid>" with x and pid free of "/". */
  predicate OrdinaryKey(key: string) {
    var parts := Split(key, '/');
    (|parts| == 2 && parts[1] == "user.json") || (|parts| == 3 && parts[1] == "personas")
  }

  lemma UserKeyParts(email: string)
    requires '/' !in EscapeEmail(email)
    ensures Split(UserKey(email), '/') == [EscapeEmail(email), "user.json"]
  {
    var e := EscapeEmail(email);
    assert UserKey(email) == Join([e, "user.json"], '/');
    SplitJoin([e, "user.json"], '/');
  }

  lemma PersonaKeyParts(email: string, pid: string)
    requires '/' !in EscapeEmail(email) && '/' !in pid
    ensures Split(PersonaKey(email, pid), '/') == [EscapeEmail(email), "personas", pid]
  {
    var e := EscapeEmail(email);
    assert Join(["personas", pid], '/') == "personas" + "/" + pid by {
      assert ["personas", pid][1..] == [pid];
    }
    assert Join([e, "personas", pid], '/') == e + "/" + Join(["personas", pid], '/') by {
      assert [e, "personas", pid][1..] == ["personas", pid];
    }
    assert PersonaKey(email, pid) == Join([e, "personas", pid], '/');
    SplitJoin([e, "personas", pid], '/');
  }

  /** With "/"-free escaped emails and persona ids, the keys the handlers write are
      ordinary, a persona key yields its own id, and no persona key is a user key. */
  lemma KeyShapes(email: string, other: string, pid: string)
    requires '/' !in EscapeEmail(email) && '/' !in EscapeEmail(other) && '/' !in pid
    ensures OrdinaryKey(UserKey(email)) && OrdinaryKey(PersonaKey(email, pid))
    ensures PersonaId(PersonaKey(email, pid)) == Some(pid)
    ensures UserKey(other) != PersonaKey(email, pid)
  {
    UserKeyParts(email);
    UserKeyParts(other);
    PersonaKeyParts(email, pid);
  }

  /** User keys of accounts with non-empty local parts are distinct. */
  lemma UserKeyInjective(a: string, b: string)
    requires LocalPart(a) != [] && LocalPart(b) != []
    requires UserKey(a) == UserKey(b)
    ensures a == b
  {
    var ea, eb := EscapeEmail(a), EscapeEmail(b);
    assert |ea| == |eb|;
    assert ea == UserKey(a)[..|ea|] == UserKey(b)[..|eb|] == eb;
    EscapeEmailInjective(a, b);
  }

  /** Persona keys determine account and id, when escaped emails and ids have no "/"
      and local parts are non-empty. */
  lemma PersonaKeyInjective(a: string, p: string, b: string, q: string)
    requires LocalPart(a) != [] && LocalPart(b) != []
    requires '/' !in EscapeEmail(a) && '/' !in EscapeEmail(b) && '/' !in p && '/' !in q
    requires PersonaKey(a, p) == PersonaKey(b, q)
    ensures a == b && p == q
  {
    PersonaKeyParts(a, p);
    PersonaKeyParts(b, q);
    EscapeEmailInjective(a, b);
  }

  /** An ordinary key found under an account's listing prefix is one of that
      account's persona keys, and its id is the persona id. */
  lemma ListedOrdinaryKey(email: string, key: string)
    requires '/' !in EscapeEmail(email)
    requires OrdinaryKey(key) && PersonaPrefix(email) <= key
    ensures PersonaId(key).Some? && '/' !in PersonaId(key).value
    ensures key == PersonaKey(email, PersonaId(key).value)
  {
    var e := EscapeEmail(email);
    var parts := Split(key, '/');
    var tail := key[|e| + 1..];
    assert key == e + ['/'] + tail;
    SplitCons(e, '/', tail);
    assert parts[0] == e;
    JoinSplit(key, '/');
    assert |parts| == 3 && parts[1] == "personas";
    assert Join(parts[1..], '/') == parts[1] + "/" + parts[2] by {
      assert parts[1..][1..] == [parts[2]];
    }
    assert Join(parts, '/') == parts[0] + "/" + Join(parts[1..], '/');
  }

  /** The missing "/" after the listing prefix lets keys of another account through:
      the user record of account x + "/personas" + y is listed among the personas of
      account x, under the id "user.json". */
  lemma ForeignKeyListed(x: string, y: string)
    requires '@' !in x && '/' !in x && '@' !in y && '/' !in y
    ensures PersonaPrefix(x) <= UserKey(x + "/personas" + y)
    ensures PersonaId(UserKey(x + "/personas" + y)) == Some("user.json")
  {
    var mid := "personas" + y;
    var other := x + ['/'] + mid;
    var file := "user.json";
    assert x + "/personas" + y == other;
    assert '@' !in other;
    EscapeWithoutAt(x);
    EscapeWithoutAt(other);
    var key := UserKey(other);
    assert key == other + ['/'] + file;
    assert key == x + ['/'] + (mid + ['/'] + file);
    assert '/' !in mid;
    SplitThree(x, mid, file, '/');
    assert PersonaPrefix(x) == x + ['/'] + "personas";
  }

  /** An account whose local part contains "/" can take over another account's
      persona: the user record of x + "/personas" is the persona "user.json" of x. */
  lemma UserKeyMeetsPersonaKey(x: string)
    requires '@' !in x
    ensures UserKey(x + "/personas") == PersonaKey(x, "user.json")
  {
    EscapeWithoutAt(x);
    EscapeWithoutAt(x + "/personas");
  }

  /** An account's user record is never one of its own personas. */
  lemma OwnKeysDiffer(email: string, pid: string)
    ensures UserKey(email) != PersonaKey(email, pid)
  {
    var n := |EscapeEmail(email)|;
    assert UserKey(email)[n + 1] == 'u';
    assert PersonaKey(email, pid)[n + 1] == 'p';
  }

  /** Every persona key of an account starts with its listing prefix. */
  lemma PrefixOfPersonaKey(email: string, pid: string)
    ensures PersonaPrefix(email) <= PersonaKey(email, pid)
  {
    assert PersonaKey(email, pid) == PersonaPrefix(email) + ("/" + pid);
  }

  /** An account's persona keys are listed in the order of their ids. */
  lemma PersonaKeyOrder(email: string, p: string, q: string)
    ensures Less(PersonaKey(email, p), PersonaKey(email, q)) <==> Less(p, q)
  {
    LessAfterPrefix(EscapeEmail(email) + "/personas/", p, q);
  }

  /** Lower-casing an address leaves its local part empty or non-empty. */
  lemma LowerLocalPart(email: string)
    ensures LocalPart(Lower(email)) == [] <==> LocalPart(email) == []
  {
    LowerSplitHead(email, '@');
  }
}
