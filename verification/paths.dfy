/** Slash-separated paths with the lexical semantics of Go's `path` package:
    `Split` and `Unsplit` (strings.Split / strings.Join on "/"), `Clean`,
    the two-argument `Join` that joinURL applies to the URL path, and
    `JoinAll`, the loop of joinURL over its segments.

    A path is understood through two observations: whether it is `Rooted`
    (starts with '/') and its `Resolved` components, the stack of names left
    after dropping empty and "." components and cancelling ".." against the
    preceding name. `Clean` renders exactly those two observations. */
module Paths {

  /** `strings.Split(p, "/")`: the components between separators. */
  function Split(p: string): (parts: seq<string>)
    ensures |parts| >= 1
    ensures forall i :: 0 <= i < |parts| ==> '/' !in parts[i]
    decreases |p|
  {
    if |p| == 0 then [""]
    else
      var init := Split(p[..|p| - 1]);
      var c := p[|p| - 1];
      if c == '/' then init + [""]
      else init[..|init| - 1] + [init[|init| - 1] + [c]]
  }

  /** Concatenation regrouped; stated once so that proofs about long
      concatenations need not rediscover it. */
  lemma ConcatAssoc(a: string, b: string, c: string)
    ensures a + (b + c) == a + b + c
  {
  }

  /** `strings.Join(parts, "/")`. */
  function Unsplit(parts: seq<string>): string
  {
    if |parts| == 0 then ""
    else if |parts| == 1 then parts[0]
    else Unsplit(parts[..|parts| - 1]) + "/" + parts[|parts| - 1]
  }

  /** A component that survives cleaning unchanged. */
  predicate IsName(c: string)
  {
    c != "" && c != "." && c != ".." && '/' !in c
  }

  predicate NoSlashIn(parts: seq<string>)
  {
    forall i :: 0 <= i < |parts| ==> '/' !in parts[i]
  }

  predicate Rooted(p: string)
  {
    |p| > 0 && p[0] == '/'
  }

  /** One step of `path.Clean`: process component `c` against the stack of
      components kept so far. Empty and "." components vanish; ".." removes
      the last kept name, is dropped at the root of a rooted path, and is kept
      at the front of an unrooted one. */
  function Push(rooted: bool, stack: seq<string>, c: string): seq<string>
  {
    if c == "" || c == "." then stack
    else if c == ".." then
      if |stack| > 0 && stack[|stack| - 1] != ".." then stack[..|stack| - 1]
      else if rooted then stack
      else stack + [".."]
    else stack + [c]
  }

  /** `Push` every component of `parts`, left to right. */
  function Resolve(rooted: bool, stack: seq<string>, parts: seq<string>): seq<string>
  {
    if |parts| == 0 then stack
    else Push(rooted, Resolve(rooted, stack, parts[..|parts| - 1]), parts[|parts| - 1])
  }

  /** The stacks `Clean` can produce: names, preceded (only in an unrooted
      path) by a run of "..". */
  predicate Canonical(rooted: bool, stack: seq<string>)
  {
    forall i :: 0 <= i < |stack| ==>
      IsName(stack[i]) || (stack[i] == ".." && !rooted && forall j :: 0 <= j < i ==> stack[j] == "..")
  }

  /** The text of a cleaned path with the given root flag and components. */
  function Render(rooted: bool, stack: seq<string>): string
  {
    if rooted then "/" + Unsplit(stack)
    else if |stack| == 0 then "."
    else Unsplit(stack)
  }

  /** The components that remain of `p` once it is cleaned. */
  function Resolved(p: string): seq<string>
  {
    Resolve(Rooted(p), [], Split(p))
  }

  /** `path.Clean`. The result's own components are the resolved names:
      no empty or "." component, no name followed by "..", and ".." only
      at the front of an unrooted path. Nothing left gives "/" or ".". */
  function Clean(p: string): (c: string)
    ensures Rooted(c) == Rooted(p)
    ensures Resolved(c) == Resolved(p)
    ensures Canonical(Rooted(p), Resolved(p))
    ensures c == "/" <==> Rooted(p) && Resolved(p) == []
    ensures c == "." <==> !Rooted(p) && Resolved(p) == []
    ensures c != "/" && c != "." ==> Split(c) == (if Rooted(p) then [""] else []) + Resolved(p)
  {
    ResolveCanonical(Rooted(p), [], Split(p));
    RenderObserved(Rooted(p), Resolved(p));
    RenderComponents(Rooted(p), Resolved(p));
    Render(Rooted(p), Resolved(p))
  }

  /** `path.Join(a, b)`: empty arguments are ignored, the rest are joined
      with "/" and cleaned; two empty arguments give "". */
  function Join(a: string, b: string): (r: string)
    ensures r == "" <==> a == "" && b == ""
    ensures Rooted(r) == if a != "" then Rooted(a) else Rooted(b)
    ensures r != "" ==> Clean(r) == r
  {
    if a == "" && b == "" then ""
    else if a == "" then
      CleanShape(b);
      CleanIdempotent(b);
      Clean(b)
    else
      var s := a + "/" + b;
      assert s[0] == a[0];
      CleanShape(s);
      CleanIdempotent(s);
      Clean(s)
  }

  /** `p := path.Join(p, s)` for each segment `s`, in order. */
  function JoinAll(p: string, segments: seq<string>): (r: string)
    ensures p != "" ==> r != "" && Rooted(r) == Rooted(p)
    ensures p != "" && |segments| > 0 ==> Clean(r) == r
  {
    if |segments| == 0 then p
    else Join(JoinAll(p, segments[..|segments| - 1]), segments[|segments| - 1])
  }

  /** The components of all segments, in order. */
  function SplitAll(segments: seq<string>): seq<string>
  {
    if |segments| == 0 then []
    else SplitAll(segments[..|segments| - 1]) + Split(segments[|segments| - 1])
  }

  /** The non-empty components of `parts`, in order. */
  function NonEmpty(parts: seq<string>): seq<string>
  {
    if |parts| == 0 then []
    else
      var init := NonEmpty(parts[..|parts| - 1]);
      if parts[|parts| - 1] == "" then init else init + [parts[|parts| - 1]]
  }

  /** No two adjacent separators, and no separator at the end unless the
      path is just the root. */
  predicate WellSeparated(p: string)
  {
    && (forall i :: 0 <= i < |p| - 1 ==> !(p[i] == '/' && p[i + 1] == '/'))
    && (p == "/" || |p| == 0 || p[|p| - 1] != '/')
  }

  /** Every character of `s` is allowed by `ok`. */
  ghost predicate Within(s: string, ok: char -> bool)
  {
    forall c :: c in s ==> ok(c)
  }

  // ---------------------------------------------------------------------
  // Split and Unsplit

  lemma {:induction false} SplitNoSlash(c: string)
    requires '/' !in c
    ensures Split(c) == [c]
    decreases |c|
  {
    if |c| > 0 {
      assert '/' !in c[..|c| - 1];
      SplitNoSlash(c[..|c| - 1]);
      assert c[..|c| - 1] + [c[|c| - 1]] == c;
    }
  }

  /** How `Split` extends by one character. */
  lemma SplitSnoc(p: string, c: char)
    ensures var init := Split(p);
      Split(p + [c]) == if c == '/' then init + [""] else init[..|init| - 1] + [init[|init| - 1] + [c]]
  {
    assert (p + [c])[..|p|] == p;
  }

  /** A separator between `a` and `b` splits them apart. */
  lemma {:induction false} SplitConcat(a: string, b: string)
    ensures Split(a + "/" + b) == Split(a) + Split(b)
    decreases |b|
  {
    if |b| == 0 {
      assert a + "/" + b == a + ['/'];
      SplitSnoc(a, '/');
    } else {
      var b' := b[..|b| - 1];
      var c := b[|b| - 1];
      var s := a + "/" + b';
      assert b' + [c] == b;
      assert s + [c] == a + "/" + b;
      SplitConcat(a, b');
      SplitSnoc(s, c);
      SplitSnoc(b', c);
      SplitStep(Split(a), Split(b'), Split(s), Split(s + [c]), Split(b' + [c]), c);
    }
  }

  /** The bookkeeping step of `SplitConcat`: extending the last component
      of a concatenation extends the last component of its second half. */
  lemma SplitStep(A: seq<string>, B: seq<string>, S: seq<string>, S': seq<string>, B': seq<string>, c: char)
    requires |B| >= 1
    requires S == A + B
    requires S' == if c == '/' then S + [""] else S[..|S| - 1] + [S[|S| - 1] + [c]]
    requires B' == if c == '/' then B + [""] else B[..|B| - 1] + [B[|B| - 1] + [c]]
    ensures S' == A + B'
  {
    if c != '/' {
      assert S[..|S| - 1] == A + B[..|B| - 1];
    }
  }

  lemma {:induction false} UnsplitSnoc(parts: seq<string>, x: string)
    requires |parts| >= 1
    ensures Unsplit(parts + [x]) == Unsplit(parts) + "/" + x
  {
    assert (parts + [x])[..|parts|] == parts;
  }

  lemma {:induction false} UnsplitConcat(a: seq<string>, b: seq<string>)
    requires |a| >= 1 && |b| >= 1
    ensures Unsplit(a + b) == Unsplit(a) + "/" + Unsplit(b)
    decreases |b|
  {
    var x := b[|b| - 1];
    if |b| == 1 {
      assert b == [x];
      UnsplitSnoc(a, x);
    } else {
      var init := b[..|b| - 1];
      assert b == init + [x];
      assert a + b == (a + init) + [x];
      UnsplitSnoc(a + init, x);
      UnsplitConcat(a, init);
      UnsplitSnoc(init, x);
    }
  }

  /** Joining components that hold no separator and splitting again gives
      them back. */
  lemma {:induction false} SplitUnsplit(parts: seq<string>)
    requires |parts| >= 1
    requires NoSlashIn(parts)
    ensures Split(Unsplit(parts)) == parts
    decreases |parts|
  {
    if |parts| == 1 {
      SplitNoSlash(parts[0]);
    } else {
      var init := parts[..|parts| - 1];
      SplitUnsplit(init);
      SplitConcat(Unsplit(init), parts[|parts| - 1]);
      SplitNoSlash(parts[|parts| - 1]);
      assert init + [parts[|parts| - 1]] == parts;
    }
  }

  /** Splitting and joining again gives the original text. */
  lemma {:induction false} UnsplitSplit(p: string)
    ensures Unsplit(Split(p)) == p
    decreases |p|
  {
    if |p| > 0 {
      var p' := p[..|p| - 1];
      var c := p[|p| - 1];
      assert p' + [c] == p;
      var init := Split(p');
      UnsplitSplit(p');
      SplitSnoc(p', c);
      if c == '/' {
        UnsplitSnoc(init, "");
        assert p' + "/" + "" == p;
      } else {
        assert init == init[..|init| - 1] + [init[|init| - 1]];
        UnsplitExtendLast(init[..|init| - 1], init[|init| - 1], c);
      }
    }
  }

  /** A character added to the last component lands at the end of the
      joined text. */
  lemma UnsplitExtendLast(front: seq<string>, last: string, c: char)
    ensures Unsplit(front + [last + [c]]) == Unsplit(front + [last]) + [c]
  {
    if |front| == 0 {
      assert front + [last + [c]] == [last + [c]];
      assert front + [last] == [last];
    } else {
      UnsplitSnoc(front, last);
      UnsplitSnoc(front, last + [c]);
      ConcatAssoc(Unsplit(front) + "/", last, [c]);
    }
  }



  lemma {:induction false} UnsplitStartsWith(parts: seq<string>)
    requires |parts| >= 1
    ensures parts[0] <= Unsplit(parts)
    decreases |parts|
  {
    if |parts| > 1 {
      UnsplitStartsWith(parts[..|parts| - 1]);
    }
  }

  /** Components that are non-empty and hold no separator join into a text
      with single separators that neither starts nor ends with one. */
  lemma {:induction false} UnsplitSeparated(parts: seq<string>)
    requires |parts| >= 1
    requires forall i :: 0 <= i < |parts| ==> parts[i] != "" && '/' !in parts[i]
    ensures var u := Unsplit(parts);
      && |u| > 0 && u[0] != '/' && u[|u| - 1] != '/'
      && forall i :: 0 <= i < |u| - 1 ==> !(u[i] == '/' && u[i + 1] == '/')
    decreases |parts|
  {
    var u := Unsplit(parts);
    if |parts| == 1 {
      assert u == parts[0];
      assert u[0] in parts[0] && u[|u| - 1] in parts[0];
      forall i | 0 <= i < |u| - 1
        ensures !(u[i] == '/' && u[i + 1] == '/')
      {
        assert u[i] in parts[0];
      }
    } else {
      var init := parts[..|parts| - 1];
      var last := parts[|parts| - 1];
      UnsplitSeparated(init);
      var v := Unsplit(init);
      assert u == v + "/" + last;
      assert u[0] == v[0];
      assert u[|u| - 1] == last[|last| - 1] && last[|last| - 1] in last;
      forall i | 0 <= i < |u| - 1
        ensures !(u[i] == '/' && u[i + 1] == '/')
      {
        if i < |v| - 1 {
          assert u[i] == v[i] && u[i + 1] == v[i + 1];
        } else if i == |v| - 1 {
          assert u[i] == v[|v| - 1];
        } else if i == |v| {
          assert u[i + 1] == last[0] && last[0] in last;
        } else {
          assert u[i + 1] == last[i + 1 - |v| - 1] && last[i + 1 - |v| - 1] in last;
        }
      }
    }
  }

  // ---------------------------------------------------------------------
  // Resolve

  /** Resolving a concatenation resolves the second part on top of the
      result of the first: cleaning works left to right. */
  lemma {:induction false} ResolveAppend(rooted: bool, stack: seq<string>, a: seq<string>, b: seq<string>)
    ensures Resolve(rooted, stack, a + b) == Resolve(rooted, Resolve(rooted, stack, a), b)
    decreases |b|
  {
    if |b| == 0 {
      assert a + b == a;
    } else {
      assert (a + b)[..|a + b| - 1] == a + b[..|b| - 1];
      ResolveAppend(rooted, stack, a, b[..|b| - 1]);
    }
  }

  /** Cleaning only ever produces canonical stacks. */
  lemma {:induction false} ResolveCanonical(rooted: bool, stack: seq<string>, parts: seq<string>)
    requires Canonical(rooted, stack)
    requires NoSlashIn(parts)
    ensures Canonical(rooted, Resolve(rooted, stack, parts))
    decreases |parts|
  {
    if |parts| > 0 {
      var init := parts[..|parts| - 1];
      var c := parts[|parts| - 1];
      ResolveCanonical(rooted, stack, init);
      var s := Resolve(rooted, stack, init);
      assert '/' !in c;
      var t := Push(rooted, s, c);
      if c == ".." && (|s| == 0 || s[|s| - 1] == "..") && !rooted {
        assert t == s + [".."];
        forall i | 0 <= i < |t|
          ensures IsName(t[i]) || (t[i] == ".." && !rooted && forall j :: 0 <= j < i ==> t[j] == "..")
        {
          if i < |s| {
            assert t[i] == s[i];
            forall j | 0 <= j < i ensures t[j] == ".." || IsName(t[i]) {
              assert t[j] == s[j];
            }
          } else if |s| > 0 {
            assert s[|s| - 1] == ".." && !IsName(s[|s| - 1]);
            forall j | 0 <= j < i ensures t[j] == ".." {
              if j < |s| - 1 {
                assert t[j] == s[j];
              } else {
                assert t[j] == s[|s| - 1];
              }
            }
          }
        }
      }
    }
  }

  /** A canonical stack is already clean: resolving it changes nothing. */
  lemma {:induction false} ResolveCanonicalIdentity(rooted: bool, stack: seq<string>)
    requires Canonical(rooted, stack)
    ensures Resolve(rooted, [], stack) == stack
    decreases |stack|
  {
    if |stack| > 0 {
      var init := stack[..|stack| - 1];
      var c := stack[|stack| - 1];
      CanonicalInit(rooted, stack);
      ResolveCanonicalIdentity(rooted, init);
      assert Resolve(rooted, [], stack) == Push(rooted, init, c);
      if !IsName(c) {
        assert c == ".." && !rooted;
        if |init| > 0 {
          assert init[|init| - 1] == stack[|init| - 1] == "..";
        }
      }
      assert init + [c] == stack;
    }
  }

  /** Dropping the last component keeps a stack canonical. */
  lemma CanonicalInit(rooted: bool, stack: seq<string>)
    requires Canonical(rooted, stack) && |stack| > 0
    ensures Canonical(rooted, stack[..|stack| - 1])
  {
    var init := stack[..|stack| - 1];
    forall i | 0 <= i < |init|
      ensures IsName(init[i]) || (init[i] == ".." && !rooted && forall j :: 0 <= j < i ==> init[j] == "..")
    {
      assert init[i] == stack[i];
      if !IsName(init[i]) {
        forall j | 0 <= j < i ensures init[j] == ".." {
          assert init[j] == stack[j];
        }
      }
    }
  }

  /** Only names and empty components: resolving keeps the names. */
  lemma {:induction false} ResolveNames(rooted: bool, stack: seq<string>, parts: seq<string>)
    requires forall i :: 0 <= i < |parts| ==> parts[i] == "" || IsName(parts[i])
    ensures Resolve(rooted, stack, parts) == stack + NonEmpty(parts)
    decreases |parts|
  {
    if |parts| > 0 {
      ResolveNames(rooted, stack, parts[..|parts| - 1]);
    }
  }

  // ---------------------------------------------------------------------
  // Render and Clean

  lemma CanonicalNoSlash(rooted: bool, stack: seq<string>)
    requires Canonical(rooted, stack)
    ensures NoSlashIn(stack)
    ensures forall i :: 0 <= i < |stack| ==> stack[i] != ""
  {
    forall i | 0 <= i < |stack| ensures '/' !in stack[i] && stack[i] != "" {
      assert IsName(stack[i]) || stack[i] == "..";
    }
  }

  /** Components that are all non-empty are kept as they are. */
  lemma {:induction false} NonEmptyNames(parts: seq<string>)
    requires forall i :: 0 <= i < |parts| ==> parts[i] != ""
    ensures NonEmpty(parts) == parts
  {
    if |parts| > 0 {
      NonEmptyNames(parts[..|parts| - 1]);
      assert parts == parts[..|parts| - 1] + [parts[|parts| - 1]];
    }
  }

  lemma ResolvedRoot()
    ensures Rooted("/") && Resolved("/") == []
  {
    SplitConcat("", "");
    assert "" + "/" + "" == "/";
    assert Split("/") == ["", ""];
    assert ["", ""][..1] == [""];
    assert Resolve(true, [], [""]) == [];
    assert Resolve(true, [], ["", ""]) == Push(true, Resolve(true, [], [""]), "");
  }

  lemma ResolvedDot()
    ensures !Rooted(".") && Resolved(".") == []
  {
    SplitNoSlash(".");
  }

  lemma ResolvedRootedStack(stack: seq<string>)
    requires |stack| > 0 && Canonical(true, stack)
    ensures Rooted("/" + Unsplit(stack)) && Resolved("/" + Unsplit(stack)) == stack
  {
    CanonicalNoSlash(true, stack);
    assert "" + "/" + Unsplit(stack) == "/" + Unsplit(stack);
    SplitConcat("", Unsplit(stack));
    SplitUnsplit(stack);
    ResolveAppend(true, [], [""], stack);
    assert Resolve(true, [], [""]) == [];
    ResolveCanonicalIdentity(true, stack);
  }

  lemma ResolvedUnrootedStack(stack: seq<string>)
    requires |stack| > 0 && Canonical(false, stack)
    ensures !Rooted(Unsplit(stack)) && Resolved(Unsplit(stack)) == stack
  {
    CanonicalNoSlash(false, stack);
    UnsplitStartsWith(stack);
    assert Unsplit(stack)[0] == stack[0][0] && stack[0][0] in stack[0];
    SplitUnsplit(stack);
    ResolveCanonicalIdentity(false, stack);
  }

  /** Reading back a rendered canonical stack recovers the root flag and
      the stack. */
  lemma RenderObserved(rooted: bool, stack: seq<string>)
    requires Canonical(rooted, stack)
    ensures Rooted(Render(rooted, stack)) == rooted
    ensures Resolved(Render(rooted, stack)) == stack
  {
    if rooted && |stack| == 0 {
      ResolvedRoot();
    } else if rooted {
      ResolvedRootedStack(stack);
    } else if |stack| == 0 {
      ResolvedDot();
    } else {
      ResolvedUnrootedStack(stack);
    }
  }

  /** The components of a rendered canonical stack: the stack itself,
      after an empty one for the root; the empty stack renders as "/" or
      ".". */
  lemma RenderComponents(rooted: bool, stack: seq<string>)
    requires Canonical(rooted, stack)
    ensures Render(rooted, stack) == "/" <==> rooted && stack == []
    ensures Render(rooted, stack) == "." <==> !rooted && stack == []
    ensures Render(rooted, stack) != "/" && Render(rooted, stack) != "." ==>
      Split(Render(rooted, stack)) == (if rooted then [""] else []) + stack
  {
    if |stack| > 0 {
      var u := Unsplit(stack);
      CanonicalNoSlash(rooted, stack);
      SplitUnsplit(stack);
      UnsplitStartsWith(stack);
      assert |u| >= |stack[0]| > 0 && u[0] == stack[0][0];
      if rooted {
        assert "" + "/" + u == "/" + u;
        SplitConcat("", u);
        assert Split("") == [""];
      } else {
        assert u[0] in stack[0];
        if u == "." {
          SplitNoSlash(".");
        }
      }
    }
  }

  /** Cleaning a clean path changes nothing. */
  lemma CleanIdempotent(p: string)
    ensures Clean(Clean(p)) == Clean(p)
  {
  }

  lemma RootSeparated(u: string)
    requires |u| > 0 && u[0] != '/' && u[|u| - 1] != '/'
    requires forall i :: 0 <= i < |u| - 1 ==> !(u[i] == '/' && u[i + 1] == '/')
    ensures WellSeparated("/" + u)
  {
    var c := "/" + u;
    forall i | 0 <= i < |c| - 1
      ensures !(c[i] == '/' && c[i + 1] == '/')
    {
      if i == 0 {
        assert c[1] == u[0];
      } else {
        assert c[i] == u[i - 1] && c[i + 1] == u[i];
      }
    }
    assert c[|c| - 1] == u[|u| - 1];
  }

  /** A cleaned path is never empty, keeps a leading separator exactly when
      the original had one, and has single separators and no trailing one. */
  lemma CleanShape(p: string)
    ensures Clean(p) != ""
    ensures Rooted(Clean(p)) <==> Rooted(p)
    ensures WellSeparated(Clean(p))
  {
    var rooted := Rooted(p);
    var stack := Resolved(p);
    ResolveCanonical(rooted, [], Split(p));
    if |stack| > 0 {
      CanonicalNoSlash(rooted, stack);
      UnsplitSeparated(stack);
      if rooted {
        RootSeparated(Unsplit(stack));
      }
    }
  }

  // ---------------------------------------------------------------------
  // Join and JoinAll

  /** Joining onto a non-empty path keeps its root flag and resolves the
      new segment's components on top of the path's own. */
  lemma JoinResolves(a: string, b: string)
    requires a != ""
    ensures Rooted(Join(a, b)) == Rooted(a)
    ensures Resolved(Join(a, b)) == Resolve(Rooted(a), Resolved(a), Split(b))
  {
    var s := a + "/" + b;
    assert s[0] == a[0];
    SplitConcat(a, b);
    ResolveAppend(Rooted(a), [], Split(a), Split(b));
  }

  /** An empty segment is elided: joining it onto a non-empty path only
      cleans the path. */
  lemma JoinEmptySegment(a: string)
    requires a != ""
    ensures Join(a, "") == Clean(a)
  {
    var s := a + "/" + "";
    assert s[0] == a[0];
    SplitConcat(a, "");
    ResolveAppend(Rooted(a), [], Split(a), [""]);
  }

  /** The result of `Join` is a fixed point of `Clean`. */
  lemma JoinIsClean(a: string, b: string)
    requires a != "" || b != ""
    ensures Join(a, b) != ""
    ensures Clean(Join(a, b)) == Join(a, b)
  {
    if a == "" {
      CleanShape(b);
      CleanIdempotent(b);
    } else {
      CleanShape(a + "/" + b);
      CleanIdempotent(a + "/" + b);
    }
  }

  /** joinURL's loop appends the components of every segment, in argument
      order, to the components of a non-empty starting path, keeping its
      root flag. */
  lemma {:induction false} JoinAllResolves(p: string, segments: seq<string>)
    requires p != ""
    ensures JoinAll(p, segments) != ""
    ensures Rooted(JoinAll(p, segments)) == Rooted(p)
    ensures Resolved(JoinAll(p, segments)) == Resolve(Rooted(p), Resolved(p), SplitAll(segments))
    decreases |segments|
  {
    if |segments| > 0 {
      var init := segments[..|segments| - 1];
      var last := segments[|segments| - 1];
      JoinAllResolves(p, init);
      var q := JoinAll(p, init);
      JoinResolves(q, last);
      JoinIsClean(q, last);
      ResolveAppend(Rooted(p), Resolved(p), SplitAll(init), Split(last));
    }
  }

  /** After at least one segment the result is clean, so it is fully
      described by its root flag and components. */
  lemma JoinAllRendered(p: string, segments: seq<string>)
    requires p != "" && |segments| > 0
    ensures JoinAll(p, segments) == Render(Rooted(p), Resolve(Rooted(p), Resolved(p), SplitAll(segments)))
  {
    var init := segments[..|segments| - 1];
    JoinAllResolves(p, init);
    JoinAllResolves(p, segments);
    JoinIsClean(JoinAll(p, init), segments[|segments| - 1]);
  }

  /** Segments made of plain names (and separators) are appended verbatim:
      the result is the cleaned start path followed by the segments' names,
      one separator between components, empty segments elided. */
  lemma JoinAllNames(p: string, segments: seq<string>)
    requires p != "" && |segments| > 0
    requires forall i :: 0 <= i < |SplitAll(segments)| ==> SplitAll(segments)[i] == "" || IsName(SplitAll(segments)[i])
    ensures JoinAll(p, segments) == Render(Rooted(p), Resolved(p) + NonEmpty(SplitAll(segments)))
  {
    JoinAllRendered(p, segments);
    ResolveNames(Rooted(p), Resolved(p), SplitAll(segments));
  }

  /** A trailing empty segment (an empty job id) does not change the
      joined path. */
  lemma JoinAllTrailingEmpty(p: string, segments: seq<string>)
    requires p != "" && |segments| > 0
    ensures JoinAll(p, segments + [""]) == JoinAll(p, segments)
  {
    assert (segments + [""])[..|segments|] == segments;
    JoinAllResolves(p, segments);
    var q := JoinAll(p, segments);
    JoinEmptySegment(q);
    JoinIsClean(JoinAll(p, segments[..|segments| - 1]), segments[|segments| - 1]);
  }

  /** A segment followed by an empty one joins like the segment alone,
      whatever the start path. */
  lemma JoinTrailingEmpty(p: string, s: string)
    requires s != ""
    ensures JoinAll(p, [s, ""]) == JoinAll(p, [s])
  {
    assert [s] + [""] == [s, ""];
    assert [s, ""][..1] == [s];
    if p != "" {
      JoinAllTrailingEmpty(p, [s]);
    } else {
      var c := JoinAll(p, [s]);
      assert JoinAll(p, [s][..0]) == p;
      assert c == Join("", s) == Clean(s);
      CleanShape(s);
      JoinEmptySegment(c);
      CleanIdempotent(s);
    }
  }

  // ---------------------------------------------------------------------
  // Characters: cleaning and joining only add separators and dots

  lemma {:induction false} SplitChars(p: string, ok: char -> bool)
    requires Within(p, ok)
    ensures forall i :: 0 <= i < |Split(p)| ==> Within(Split(p)[i], ok)
    decreases |p|
  {
    if |p| > 0 {
      var p' := p[..|p| - 1];
      var c := p[|p| - 1];
      assert p' + [c] == p;
      assert Within(p', ok) by {
        forall x | x in p' ensures ok(x) {
          assert x in p;
        }
      }
      SplitChars(p', ok);
      SplitSnoc(p', c);
      var init := Split(p');
      forall i | 0 <= i < |Split(p)| ensures Within(Split(p)[i], ok) {
        if i < |init| - 1 || (c == '/' && i < |init|) {
          assert Split(p)[i] == init[i];
        } else if c != '/' {
          assert Split(p)[i] == init[|init| - 1] + [c];
        }
      }
    }
  }

  lemma {:induction false} UnsplitChars(parts: seq<string>, ok: char -> bool)
    requires forall i :: 0 <= i < |parts| ==> Within(parts[i], ok)
    requires ok('/')
    ensures Within(Unsplit(parts), ok)
    decreases |parts|
  {
    if |parts| > 1 {
      UnsplitChars(parts[..|parts| - 1], ok);
    }
  }

  lemma {:induction false} ResolveChars(rooted: bool, stack: seq<string>, parts: seq<string>, ok: char -> bool)
    requires forall i :: 0 <= i < |stack| ==> Within(stack[i], ok)
    requires forall i :: 0 <= i < |parts| ==> Within(parts[i], ok)
    requires ok('.')
    ensures forall i :: 0 <= i < |Resolve(rooted, stack, parts)| ==> Within(Resolve(rooted, stack, parts)[i], ok)
    decreases |parts|
  {
    if |parts| > 0 {
      ResolveChars(rooted, stack, parts[..|parts| - 1], ok);
      assert Within("..", ok);
    }
  }

  /** Cleaning adds no character other than '/' and '.'. */
  lemma CleanChars(p: string, ok: char -> bool)
    requires Within(p, ok) && ok('/') && ok('.')
    ensures Within(Clean(p), ok)
  {
    SplitChars(p, ok);
    ResolveChars(Rooted(p), [], Split(p), ok);
    UnsplitChars(Resolved(p), ok);
  }

  lemma JoinChars(a: string, b: string, ok: char -> bool)
    requires Within(a, ok) && Within(b, ok) && ok('/') && ok('.')
    ensures Within(Join(a, b), ok)
  {
    if a != "" {
      CleanChars(a + "/" + b, ok);
    } else if b != "" {
      CleanChars(b, ok);
    }
  }

  /** Joining segments onto a path adds no character other than '/' and
      '.' to those of the path and the segments. */
  lemma {:induction false} JoinAllChars(p: string, segments: seq<string>, ok: char -> bool)
    requires Within(p, ok) && ok('/') && ok('.')
    requires forall i :: 0 <= i < |segments| ==> Within(segments[i], ok)
    ensures Within(JoinAll(p, segments), ok)
    decreases |segments|
  {
    if |segments| > 0 {
      JoinAllChars(p, segments[..|segments| - 1], ok);
      JoinChars(JoinAll(p, segments[..|segments| - 1]), segments[|segments| - 1], ok);
    }
  }
}
