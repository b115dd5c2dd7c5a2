/**
 Path strings: path_parse, wash_path, make_clear_abs_path and the reversal loop of getcwd, against
 the list of components a path spells. Strings are byte sequences without the closing NUL.
 */
module Paths {
  import opened Volume
  import opened DirCells

  type Name = seq<byte>

  const SLASH: byte := 47

  // ---------------------------------------------------------------- components

  function SkipSlashes(p: seq<byte>): (r: seq<byte>)
    ensures |r| <= |p| && (r != [] ==> r[0] != SLASH)
  {
    if p != [] && p[0] == SLASH then SkipSlashes(p[1..]) else p
  }

  function HeadName(p: seq<byte>): (r: Name)
    ensures |r| <= |p| && SLASH !in r
    ensures p != [] && p[0] != SLASH ==> r != []
  {
    if p == [] || p[0] == SLASH then [] else [p[0]] + HeadName(p[1..])
  }

  /** The non-empty pieces between slashes. */
  function Components(p: seq<byte>): seq<Name>
    decreases |p|
  {
    var q := SkipSlashes(p);
    if q == [] then [] else [HeadName(q)] + Components(q[|HeadName(q)|..])
  }

  predicate Clean(n: Name) { n != [] && SLASH !in n }

  predicate AllClean(ns: seq<Name>) { forall i :: 0 <= i < |ns| ==> Clean(ns[i]) }

  lemma {:induction false} ComponentsClean(p: seq<byte>)
    ensures AllClean(Components(p))
    decreases |p|
  {
    var q := SkipSlashes(p);
    if q != [] {
      ComponentsClean(q[|HeadName(q)|..]);
    }
  }

  /** "/c1/c2/.../cn", and nothing for no components. */
  function Slashed(ns: seq<Name>): seq<byte> {
    if ns == [] then [] else Slashed(ns[..|ns| - 1]) + [SLASH] + ns[|ns| - 1]
  }

  function Render(ns: seq<Name>): seq<byte> {
    if ns == [] then [SLASH] else Slashed(ns)
  }

  lemma {:induction false} HeadOf(n: Name, tail: seq<byte>)
    requires SLASH !in n && (tail == [] || tail[0] == SLASH)
    ensures HeadName(n + tail) == n
  {
    if n != [] {
      assert (n + tail)[0] == n[0] && (n + tail)[1..] == n[1..] + tail;
      HeadOf(n[1..], tail);
    } else {
      assert n + tail == tail;
    }
  }

  /** Parsing splits at a slash: what is before it and what is after it are parsed apart. */
  lemma {:induction false} ComponentsSplit(a: seq<byte>, b: seq<byte>)
    requires b == [] || b[0] == SLASH
    ensures Components(a + b) == Components(a) + Components(b)
    decreases |a|
  {
    hide Components, HeadName, SkipSlashes;
    ParseNothing();
    if a == [] {
      assert a + b == b;
    } else if a[0] == SLASH {
      assert (a + b)[1..] == a[1..] + b;
      LeadingSlash(a);
      LeadingSlash(a + b);
      ComponentsSplit(a[1..], b);
    } else {
      HeadSplit(a, b);
      SkipStep(a);
      SkipStep(a + b);
      Taken(a, a);
      Taken(a + b, a + b);
      HeadStep(a);
      var k := |HeadName(a)|;
      assert (a + b)[k..] == a[k..] + b;
      ComponentsSplit(a[k..], b);
    }
  }

  lemma LeadingSlash(p: seq<byte>)
    requires p != [] && p[0] == SLASH
    ensures Components(p) == Components(p[1..])
  {
    hide HeadName;
  }

  lemma {:induction false} HeadSplit(a: seq<byte>, b: seq<byte>)
    requires b == [] || b[0] == SLASH
    ensures HeadName(a + b) == HeadName(a)
  {
    if a == [] {
      assert a + b == b;
    } else {
      assert (a + b)[0] == a[0] && (a + b)[1..] == a[1..] + b;
      if a[0] != SLASH { HeadSplit(a[1..], b); }
    }
  }

  lemma OneComponent(n: Name)
    requires Clean(n)
    ensures Components([SLASH] + n) == [n]
  {
    assert ([SLASH] + n)[1..] == n;
    assert SkipSlashes(n) == n;
    assert n + [] == n;
    HeadOf(n, []);
    assert n[|n|..] == [];
  }

  lemma ParseNothing()
    ensures Components([]) == [] && Components([SLASH]) == []
  {
    assert [SLASH][1..] == [];
  }

  /** Rendering then parsing gives the components back. */
  lemma {:induction false} RenderParse(ns: seq<Name>)
    requires AllClean(ns)
    ensures Components(Slashed(ns)) == ns && Components(Render(ns)) == ns
  {
    hide Components, HeadName, SkipSlashes;
    ParseNothing();
    if ns != [] {
      var init, n := ns[..|ns| - 1], ns[|ns| - 1];
      RenderParse(init);
      ComponentsSplit(Slashed(init), [SLASH] + n);
      OneComponent(n);
      assert Slashed(ns) == Slashed(init) + ([SLASH] + n);
      assert ns == init + [n];
    }
  }

  // ---------------------------------------------------------------- path_parse

  /**
   Takes the first component off a path: skips leading slashes, copies up to the next slash or the
   end. `nil` is the NULL returned for the empty path.
   */
  method PathParse(path: seq<byte>) returns (name: Name, rest: seq<byte>, nil: bool)
    ensures nil <==> path == []
    ensures |rest| <= |path| && (name != [] ==> |rest| < |path|)
    ensures if Components(path) == [] then name == [] && Components(rest) == []
            else [name] + Components(rest) == Components(path)
    ensures rest == [] || rest[0] == SLASH
  {
    hide Components, HeadName, SkipSlashes;
    name, rest, nil := [], path, path == [];
    ParseNothing();
    SkipStep(path);
    if nil { return; }
    if rest[0] == SLASH {
      rest := rest[1..];
      while rest != [] && rest[0] == SLASH
        invariant |rest| < |path| && SkipSlashes(rest) == SkipSlashes(path)
        decreases |rest|
      {
        SkipStep(rest);
        rest := rest[1..];
      }
    }
    ghost var q := rest;
    SkipStep(q);
    while rest != [] && rest[0] != SLASH
      invariant |name| <= |q| && name == q[..|name|] && rest == q[|name|..] && SLASH !in name
      decreases |rest|
    {
      TakeOne(q, |name|);
      name, rest := name + [rest[0]], rest[1..];
    }
    HeadIs(q, |name|);
    Taken(path, q);
  }

  lemma TakeOne(q: seq<byte>, k: nat)
    requires k < |q|
    ensures q[k..][0] == q[k] && q[..k] + [q[k]] == q[..k + 1] && q[k..][1..] == q[k + 1..]
  {
  }

  lemma {:induction false} HeadIs(q: seq<byte>, k: nat)
    requires k <= |q| && SLASH !in q[..k] && (k < |q| ==> q[k] == SLASH)
    ensures HeadName(q) == q[..k]
  {
    if k > 0 {
      assert q[..k][0] == q[0];
      assert q[1..][..k - 1] == q[..k][1..];
      HeadIs(q[1..], k - 1);
    }
  }

  lemma SkipStep(p: seq<byte>)
    ensures SkipSlashes(p) == if p != [] && p[0] == SLASH then SkipSlashes(p[1..]) else p
  {
  }

  lemma HeadStep(p: seq<byte>)
    ensures HeadName(p) == if p == [] || p[0] == SLASH then [] else [p[0]] + HeadName(p[1..])
  {
  }

  lemma Taken(path: seq<byte>, q: seq<byte>)
    requires q == SkipSlashes(path)
    ensures |HeadName(q)| <= |q|
    ensures Components(path) == if q == [] then [] else [HeadName(q)] + Components(q[|HeadName(q)|..])
    ensures q == [] ==> HeadName(q) == [] && Components(q) == []
  {
  }

  // ---------------------------------------------------------------- wash_path

  /** What one component does to the stack of names so far. */
  function Push(stack: seq<Name>, n: Name): seq<Name> {
    if n == DotDot() then (if stack == [] then [] else stack[..|stack| - 1])
    else if n == Dot() then stack
    else stack + [n]
  }

  function Normalize(ns: seq<Name>): seq<Name> {
    if ns == [] then [] else Push(Normalize(ns[..|ns| - 1]), ns[|ns| - 1])
  }

  predicate Undotted(ns: seq<Name>) { forall i :: 0 <= i < |ns| ==> ns[i] != Dot() && ns[i] != DotDot() }

  /** A normal path has no "." or "..", and every name in it was a name of the original. */
  lemma {:induction false} NormalizeClean(ns: seq<Name>)
    ensures Undotted(Normalize(ns))
    ensures forall n :: n in Normalize(ns) ==> n in ns
    ensures |Normalize(ns)| <= |ns|
  {
    if ns != [] {
      NormalizeClean(ns[..|ns| - 1]);
    }
  }

  lemma {:induction false} NormalizeUndotted(ns: seq<Name>)
    requires Undotted(ns)
    ensures Normalize(ns) == ns
  {
    if ns != [] {
      NormalizeUndotted(ns[..|ns| - 1]);
      assert ns == ns[..|ns| - 1] + [ns[|ns| - 1]];
    }
  }

  function Washed(path: seq<byte>): seq<byte> {
    Render(Normalize(Components(path)))
  }

  /** Washing twice is washing once. */
  lemma WashIdempotent(path: seq<byte>)
    ensures Washed(Washed(path)) == Washed(path)
    ensures Components(Washed(path)) == Normalize(Components(path)) && Undotted(Components(Washed(path)))
  {
    var ns := Normalize(Components(path));
    ComponentsClean(path);
    NormalizeClean(Components(path));
    assert AllClean(ns) by {
      forall i | 0 <= i < |ns| ensures Clean(ns[i]) { assert ns[i] in ns; }
    }
    RenderParse(ns);
    NormalizeUndotted(ns);
  }

  /** strrchar for '/': the index of the last slash, or -1. */
  method LastSlash(s: seq<byte>) returns (k: int)
    ensures -1 <= k < |s|
    ensures k >= 0 ==> s[k] == SLASH
    ensures forall i :: k < i < |s| ==> s[i] != SLASH
  {
    k := |s| - 1;
    while k >= 0
      invariant -1 <= k < |s|
      invariant forall i :: k < i < |s| ==> s[i] != SLASH
    {
      if s[k] == SLASH { return; }
      k := k - 1;
    }
  }

  /** In a rendered path the last slash opens the last component. */
  lemma LastSlashOf(ns: seq<Name>, k: int)
    requires AllClean(ns) && ns != []
    requires -1 <= k < |Slashed(ns)| && (k >= 0 ==> Slashed(ns)[k] == SLASH)
    requires forall i :: k < i < |Slashed(ns)| ==> Slashed(ns)[i] != SLASH
    ensures k == |Slashed(ns[..|ns| - 1])|
    ensures Slashed(ns)[..k] == Slashed(ns[..|ns| - 1])
    ensures Slashed(ns)[k..] == [SLASH] + ns[|ns| - 1]
    ensures k == 0 <==> |ns| == 1
  {
    var s, init, n := Slashed(ns), Slashed(ns[..|ns| - 1]), ns[|ns| - 1];
    assert s == init + ([SLASH] + n);
    assert s[|init|] == SLASH;
    assert forall i :: |init| < i < |s| ==> s[i] == n[i - |init| - 1];
    assert Clean(n);
  }

  lemma {:induction false} StillClean(ns: seq<Name>)
    requires AllClean(ns)
    ensures AllClean(Normalize(ns))
  {
    if ns != [] {
      StillClean(ns[..|ns| - 1]);
    }
  }

  /** Cutting a rendered path at its last slash, or after it at the root, pops one name. */
  lemma PopName(stack: seq<Name>, k: int)
    requires AllClean(stack)
    requires -1 <= k < |Render(stack)| && (k >= 0 ==> Render(stack)[k] == SLASH)
    requires forall i :: k < i < |Render(stack)| ==> Render(stack)[i] != SLASH
    ensures k >= 0
    ensures Render(Push(stack, DotDot())) == if k != 0 then Render(stack)[..k] else Render(stack)[..k + 1]
  {
    hide Components;
    if stack != [] {
      LastSlashOf(stack, k);
      if k == 0 { assert Render(stack)[..1] == [SLASH]; }
    } else {
      assert Render(stack)[0] == SLASH;
      assert Render(stack)[..1] == [SLASH];
    }
  }

  lemma PushName(stack: seq<Name>, n: Name)
    requires AllClean(stack)
    ensures Slashed(stack + [n]) == (if Render(stack) != [SLASH] then Render(stack) + [SLASH] else Render(stack)) + n
  {
    assert (stack + [n])[..|stack|] == stack;
    RootAlone(stack);
  }

  lemma NormalizeStep(ns: seq<Name>, k: nat)
    requires k < |ns|
    ensures Normalize(ns[..k + 1]) == Push(Normalize(ns[..k]), ns[k])
  {
    assert ns[..k + 1][..k] == ns[..k];
  }

  lemma PrefixClean(ns: seq<Name>, k: nat)
    requires AllClean(ns) && k <= |ns|
    ensures AllClean(Normalize(ns[..k]))
  {
    StillClean(ns[..k]);
  }

  /** Rewrites an absolute path without "." and "..", building the result in place. */
  method WashPath(oldPath: seq<byte>) returns (path: seq<byte>)
    requires oldPath != [] && oldPath[0] == SLASH
    ensures path == Washed(oldPath)
  {
    hide Components, Normalize, Render, Slashed, AllClean;
    ghost var all := Components(oldPath);
    ghost var done := 0;
    ComponentsClean(oldPath);
    var name, rest, nil := PathParse(oldPath);
    NormalizeNone();
    if name == [] {
      CleanAt(all, 0);
      return [SLASH];
    }
    path := [SLASH];
    assert all[..0] == [];
    while name != []
      invariant 0 <= done <= |all| && path == Render(Normalize(all[..done]))
      invariant if done == |all| then name == [] else name == all[done] && Components(rest) == all[done + 1..]
      decreases |all| - done
    {
      ghost var stack := Normalize(all[..done]);
      PrefixClean(all, done);
      NormalizeStep(all, done);
      if name == DotDot() {
        var k := LastSlash(path);
        PopName(stack, k);
        if k != 0 {
          path := path[..k];
        } else {
          path := path[..k + 1];
        }
      } else if name != Dot() {
        PushName(stack, name);
        RenderMore(stack, name);
        if path != [SLASH] {
          path := path + [SLASH];
        }
        path := path + name;
      }
      done := done + 1;
      name, rest, nil := PathParse(rest);
      CleanAt(all, done);
    }
    CleanAt(all, done);
    assert all[..done] == all;
  }

  lemma NormalizeNone()
    ensures Normalize([]) == [] && Render([]) == [SLASH]
  {
  }

  lemma CleanAt(ns: seq<Name>, k: nat)
    requires AllClean(ns)
    ensures k < |ns| ==> ns[k] != []
  {
  }

  lemma RenderMore(stack: seq<Name>, n: Name)
    ensures Render(stack + [n]) == Slashed(stack + [n])
  {
  }

  lemma RootAlone(stack: seq<Name>)
    requires AllClean(stack)
    ensures Render(stack) == [SLASH] <==> stack == []
  {
    if stack != [] {
      assert Clean(stack[|stack| - 1]);
      assert |Slashed(stack)| >= 2;
    }
  }

  /** make_clear_abs_path: relative paths are taken from the current directory, then washed. */
  method MakeClearAbsPath(path: seq<byte>, cwd: seq<byte>) returns (final: seq<byte>)
    requires cwd != [] && cwd[0] == SLASH
    ensures final == Render(Normalize((if path != [] && path[0] == SLASH then []
      else Components(cwd)) + Components(path)))
  {
    var abs: seq<byte> := [];
    hide Components, Normalize, Render;
    if path == [] || path[0] != SLASH {
      abs := cwd;
      if cwd != [SLASH] {
        abs := abs + [SLASH];
      }
      RelativeComponents(cwd, path);
      assert cwd == [SLASH] ==> [] + Components(path) == Components(path);
    } else {
      assert abs + path == path && [] + Components(path) == Components(path);
    }
    final := WashPath(abs + path);
  }

  lemma RelativeComponents(cwd: seq<byte>, path: seq<byte>)
    requires cwd != []
    ensures Components(cwd + [SLASH] + path) == Components(cwd) + Components(path)
    ensures Components([SLASH] + path) == Components(path) && Components([SLASH]) == []
  {
    ComponentsSplit(cwd, [SLASH] + path);
    assert cwd + [SLASH] + path == cwd + ([SLASH] + path);
    assert ([SLASH] + path)[1..] == path;
    assert [SLASH][1..] == [];
  }

  // ---------------------------------------------------------------- the reversal loop of getcwd

  /** "/cn/.../c1": what the upward walk collects. */
  function Upward(ns: seq<Name>): seq<byte> {
    if ns == [] then [] else [SLASH] + ns[|ns| - 1] + Upward(ns[..|ns| - 1])
  }

  function Reverse(ns: seq<Name>): (r: seq<Name>)
    ensures |r| == |ns| && forall i :: 0 <= i < |ns| ==> r[i] == ns[|ns| - 1 - i]
  {
    seq(|ns|, i requires 0 <= i < |ns| => ns[|ns| - 1 - i])
  }

  lemma {:induction false} SlashedFront(n: Name, ns: seq<Name>)
    ensures Slashed([n] + ns) == [SLASH] + n + Slashed(ns)
  {
    if ns == [] {
      assert [n] + ns == [n] && [n][..0] == [];
    } else {
      var m := [n] + ns;
      assert m[..|m| - 1] == [n] + ns[..|ns| - 1];
      SlashedFront(n, ns[..|ns| - 1]);
    }
  }

  lemma {:induction false} UpwardSlashed(ns: seq<Name>)
    ensures Upward(ns) == Slashed(Reverse(ns))
  {
    if ns != [] {
      UpwardSlashed(ns[..|ns| - 1]);
      assert Reverse(ns) == [ns[|ns| - 1]] + Reverse(ns[..|ns| - 1]);
      SlashedFront(ns[|ns| - 1], Reverse(ns[..|ns| - 1]));
    }
  }

  /** One turn of the loop: the last piece of what is left is the next name of the result. */
  lemma ReverseStep(ns: seq<Name>, done: nat, k: int)
    requires AllClean(ns) && done < |ns|
    requires var left := Slashed(Reverse(ns)[..|ns| - done]);
      && -1 <= k < |left| && (k >= 0 ==> left[k] == SLASH)
      && forall i :: k < i < |left| ==> left[i] != SLASH
    ensures k >= 0
    ensures var left := Slashed(Reverse(ns)[..|ns| - done]);
      && left[..k] == Slashed(Reverse(ns)[..|ns| - done - 1])
      && Slashed(ns[..done]) + left[k..] == Slashed(ns[..done + 1])
  {
    var cur := Reverse(ns)[..|ns| - done];
    LastSlashOf(cur, k);
    assert cur[..|cur| - 1] == Reverse(ns)[..|ns| - done - 1];
    assert ns[..done + 1][..done] == ns[..done];
  }

  /** Cuts the collected path at its last slash until nothing is left, appending each piece. */
  method ReversePath(collected: seq<byte>, ghost ns: seq<Name>) returns (buf: seq<byte>)
    requires AllClean(ns) && collected == Upward(ns)
    ensures buf == Slashed(ns)
  {
    hide Slashed, Upward, Reverse;
    UpwardSlashed(ns);
    assert Reverse(ns)[..|ns|] == Reverse(ns) && ns[..0] == [] && Reverse(ns)[..0] == [];
    SlashedNone();
    var left := collected;
    buf := [];
    ghost var done := 0;
    var k := LastSlash(left);
    while k >= 0
      invariant 0 <= done <= |ns| && left == Slashed(Reverse(ns)[..|ns| - done]) && buf == Slashed(ns[..done])
      invariant -1 <= k < |left| && (k >= 0 ==> left[k] == SLASH)
      invariant forall i :: k < i < |left| ==> left[i] != SLASH
      decreases |ns| - done
    {
      ReverseStep(ns, done, k);
      buf := buf + left[k..];
      left := left[..k];
      done := done + 1;
      k := LastSlash(left);
    }
    if done < |ns| { ReverseStep(ns, done, k); }
    assert ns[..done] == ns;
  }

  lemma SlashedNone()
    ensures Slashed([]) == []
  {
  }
}
