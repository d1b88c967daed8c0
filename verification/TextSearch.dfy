// Searching text for a fixed string, and where it can and cannot occur in text
// put together from pieces.
module TextSearch {
  import opened Wrappers

  predicate At(t: string, m: string, i: int) {
    0 <= i && i + |m| <= |t| && t[i..i + |m|] == m
  }

  // std::string::find; None is npos.
  function Find(t: string, m: string, from: nat): (at: Option<nat>)
    ensures at.None? ==> forall i | from <= i :: !At(t, m, i)
    ensures at.Some? ==> from <= at.value && At(t, m, at.value) && forall i | from <= i < at.value :: !At(t, m, i)
    decreases |t| - from
  {
    if from + |m| > |t| then None else if At(t, m, from) then Some(from) else Find(t, m, from + 1)
  }

  ghost predicate Free(t: string, m: string) {
    forall i :: !At(t, m, i)
  }

  ghost predicate FirstAt(t: string, m: string, k: int) {
    At(t, m, k) && forall i | i < k :: !At(t, m, i)
  }

  lemma AtSuffix(t: string, u: string, m: string, i: int)
    requires i >= 0
    ensures At(t + u, m, |t| + i) == At(u, m, i)
  {
    if i + |m| <= |u| {
      assert (t + u)[|t| + i..|t| + i + |m|] == u[i..i + |m|];
    }
  }

  lemma AtChar(t: string, m: string, i: int, j: int)
    requires At(t, m, i) && i <= j < i + |m|
    ensures t[j] in m
  {
    assert t[j] == m[j - i];
  }

  lemma AtStarts(t: string, m: string, i: int)
    requires At(t, m, i) && m != ""
    ensures t[i] == m[0]
  {
  }

  // An occurrence cannot run over a character it does not contain.
  lemma AtSeparated(a: string, c: char, b: string, m: string, i: int)
    requires c !in m && m != ""
    ensures At(a + [c] + b, m, i) ==> At(a, m, i) || (i > |a| && At(b, m, i - |a| - 1))
  {
    var t := a + [c] + b;
    if At(t, m, i) {
      if i <= |a| < i + |m| {
        AtChar(t, m, i, |a|);
      } else if i + |m| <= |a| {
        assert t[i..i + |m|] == a[i..i + |m|];
      } else {
        AtSuffix(a + [c], b, m, i - |a| - 1);
      }
    }
  }

  lemma FreeJoin(a: string, c: char, b: string, m: string)
    requires Free(a, m) && Free(b, m) && c !in m && m != ""
    ensures Free(a + [c] + b, m)
  {
    forall i
      ensures !At(a + [c] + b, m, i)
    {
      AtSeparated(a, c, b, m, i);
      hide At;
    }
  }

  lemma FirstAfter(a: string, c: char, b: string, m: string, k: int)
    requires Free(a, m) && c !in m && m != "" && FirstAt(b, m, k)
    ensures FirstAt(a + [c] + b, m, |a| + 1 + k)
  {
    var t := a + [c] + b;
    assert k >= 0;
    AtSuffix(a + [c], b, m, k);
    forall i | i < |a| + 1 + k
      ensures !At(t, m, i)
    {
      AtSeparated(a, c, b, m, i);
      hide At;
    }
  }

  lemma AtHasChar(t: string, m: string, i: int, c: char)
    requires c in m && At(t, m, i)
    ensures c in t
  {
    assert c in t[i..i + |m|];
  }

  lemma FreeByChar(t: string, m: string, c: char)
    requires c in m && c !in t
    ensures Free(t, m)
  {
    forall i | At(t, m, i)
      ensures false
    {
      AtHasChar(t, m, i, c);
    }
  }

  lemma AtShorter(t: string, m: string, more: string, i: int)
    ensures At(t, m + more, i) ==> At(t, m, i)
  {
    if At(t, m + more, i) {
      assert t[i..i + |m + more|][..|m|] == t[i..i + |m|];
    }
  }

  lemma FreeLonger(t: string, m: string, more: string)
    requires Free(t, m)
    ensures Free(t, m + more)
  {
    forall i
      ensures !At(t, m + more, i)
    {
      AtShorter(t, m, more, i);
      hide At;
    }
  }

  lemma FoundAt(t: string, m: string, from: nat, k: nat)
    requires from <= k && At(t, m, k) && forall i | from <= i < k :: !At(t, m, i)
    ensures Find(t, m, from) == Some(k)
  {
    hide At, Find;
    var r := Find(t, m, from);
    assert r.Some?;
  }

  lemma FirstIsFound(t: string, m: string, k: int)
    requires FirstAt(t, m, k)
    ensures Find(t, m, 0) == Some(k)
  {
    assert k >= 0;
    hide At, Find;
    FoundAt(t, m, 0, k);
  }

  // ---------- Text before, and from, the first occurrence ----------

  function Upto(t: string, m: string): string {
    t[..Find(t, m, 0).GetOr(|t|)]
  }

  function Onward(t: string, m: string): Option<string> {
    match Find(t, m, 0)
    case None => None
    case Some(k) => Some(t[k..])
  }

  function Sep(a: string, c: char, b: string): string {
    a + [c] + b
  }

  lemma FindNone(t: string, m: string, from: nat)
    requires forall i | from <= i :: !At(t, m, i)
    ensures Find(t, m, from) == None
  {
    hide At, Find;
    var r := Find(t, m, from);
  }

  lemma FindFree(t: string, m: string)
    requires Free(t, m)
    ensures Find(t, m, 0) == None
  {
    hide At;
    FindNone(t, m, 0);
  }

  // Searching a longer text from the end of its front part.
  lemma FindInSuffix(t: string, u: string, m: string, j: nat)
    ensures Find(t + u, m, |t| + j)
         == match Find(u, m, j) case None => None case Some(k) => Some(|t| + k)
  {
    hide At, Find;
    var r := Find(u, m, j);
    forall i | |t| + j <= i
      ensures At(t + u, m, i) == At(u, m, i - |t|)
    {
      AtSuffix(t, u, m, i - |t|);
    }
    match r
    case None => FindNone(t + u, m, |t| + j);
    case Some(k) => FoundAt(t + u, m, |t| + j, |t| + k);
  }

  lemma FindSep(a: string, c: char, b: string, m: string)
    requires Free(a, m) && c !in m && m != ""
    ensures Find(Sep(a, c, b), m, 0)
         == match Find(b, m, 0) case None => None case Some(k) => Some(|a| + 1 + k)
  {
    hide Find;
    match Find(b, m, 0)
    case None =>
      NothingFound(b, m);
      FreeJoin(a, c, b, m);
      FindFree(Sep(a, c, b), m);
    case Some(k) =>
      FoundFirst(b, m);
      FirstAfter(a, c, b, m, k);
      FirstIsFound(Sep(a, c, b), m, |a| + 1 + k);
  }

  lemma NothingFound(t: string, m: string)
    requires Find(t, m, 0) == None
    ensures Free(t, m)
  {
    hide Find;
  }

  lemma FoundFirst(t: string, m: string)
    requires Find(t, m, 0).Some?
    ensures FirstAt(t, m, Find(t, m, 0).value)
  {
    hide Find;
  }

  lemma UptoSep(a: string, c: char, b: string, m: string)
    requires Free(a, m) && c !in m && m != ""
    ensures Upto(Sep(a, c, b), m) == Sep(a, c, Upto(b, m))
  {
    hide Find;
    FindSep(a, c, b, m);
  }

  lemma OnwardSep(a: string, c: char, b: string, m: string)
    requires Free(a, m) && c !in m && m != ""
    ensures Onward(Sep(a, c, b), m) == Onward(b, m)
  {
    hide Find;
    FindSep(a, c, b, m);
    if Find(b, m, 0).Some? {
      var k := Find(b, m, 0).value;
      assert Sep(a, c, b)[|a| + 1 + k..] == b[k..];
    }
  }

  // The first occurrence is right after some characters it cannot start with.
  lemma FindAfterPrefix(p: string, s: string, m: string)
    requires m != "" && m[0] !in p && At(s, m, 0)
    ensures Find(p + s, m, 0) == Some(|p|)
  {
    hide Find;
    AtSuffix(p, s, m, 0);
    forall i | 0 <= i < |p|
      ensures !At(p + s, m, i)
    {
      if At(p + s, m, i) {
        AtStarts(p + s, m, i);
      }
    }
    hide At;
    FoundAt(p + s, m, 0, |p|);
  }

  lemma OnwardPrefix(p: string, s: string, m: string)
    requires m != "" && m[0] !in p && At(s, m, 0)
    ensures Onward(p + s, m) == Some(s) && Upto(p + s, m) == p
  {
    hide Find;
    FindAfterPrefix(p, s, m);
    assert (p + s)[|p|..] == s && (p + s)[..|p|] == p;
  }

  // Lines, each followed by a newline, and then z.
  function Chain(lines: seq<string>, z: string): string {
    if lines == [] then z else Sep(lines[0], '\n', Chain(lines[1..], z))
  }

  lemma {:induction false} UptoChain(lines: seq<string>, z: string, m: string)
    requires (forall line | line in lines :: Free(line, m)) && '\n' !in m && m != ""
    ensures Upto(Chain(lines, z), m) == Chain(lines, Upto(z, m))
    decreases |lines|
  {
    hide Upto, Sep, Free;
    if lines != [] {
      UptoSep(lines[0], '\n', Chain(lines[1..], z), m);
      UptoChain(lines[1..], z, m);
    }
  }

  lemma {:induction false} OnwardChain(lines: seq<string>, j: nat, z: string, m: string)
    requires j <= |lines| && (forall i | 0 <= i < j :: Free(lines[i], m)) && '\n' !in m && m != ""
    ensures Onward(Chain(lines, z), m) == Onward(Chain(lines[j..], z), m)
    decreases j
  {
    hide Onward, Sep, Free;
    if j == 0 {
      assert lines[0..] == lines;
    } else {
      OnwardSep(lines[0], '\n', Chain(lines[1..], z), m);
      OnwardChain(lines[1..], j - 1, z, m);
      assert lines[1..][j - 1..] == lines[j..];
    }
  }
}
