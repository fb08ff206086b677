/** The stack of pending image requests (ImageManager.ImageQueue and ImageRef).
    The stack is a sequence whose LAST element is the top: `push` appends, `pop` removes the
    last element, and `get(i)`/`remove(i)` index from the bottom, as on a java.util.Stack. */
module RequestQueue {
  import opened Widgets

  type Url = string

  /** A pending request: the URL to fetch, the view to paint and its progress bar. */
  datatype ImageRef = ImageRef(url: Url, view: ImageView, bar: ProgressBar)

  /** The stack with every ref for `view` removed; the specification of ImageQueue.Clean. */
  function Cleaned(s: seq<ImageRef>, view: ImageView): (c: seq<ImageRef>)
    ensures |c| <= |s|
  {
    if s == [] then []
    else (if s[0].view == view then [] else [s[0]]) + Cleaned(s[1..], view)
  }

  /** The refs bound to `view`, bottom to top. */
  function RefsFor(s: seq<ImageRef>, view: ImageView): (f: seq<ImageRef>)
    ensures |f| <= |s|
  {
    if s == [] then []
    else (if s[0].view == view then [s[0]] else []) + RefsFor(s[1..], view)
  }

  /** Clean keeps exactly the refs bound to other views. */
  lemma {:induction false} CleanedMembers(s: seq<ImageRef>, view: ImageView)
    ensures forall i :: 0 <= i < |Cleaned(s, view)| ==>
      Cleaned(s, view)[i] in s && Cleaned(s, view)[i].view != view
    ensures forall i :: 0 <= i < |s| && s[i].view != view ==> s[i] in Cleaned(s, view)
  {
    if s != [] {
      CleanedMembers(s[1..], view);
      assert s == [s[0]] + s[1..];
    }
  }

  /** RefsFor picks exactly the refs bound to the view. */
  lemma {:induction false} RefsForMembers(s: seq<ImageRef>, view: ImageView)
    ensures forall i :: 0 <= i < |RefsFor(s, view)| ==>
      RefsFor(s, view)[i] in s && RefsFor(s, view)[i].view == view
    ensures forall i :: 0 <= i < |s| && s[i].view == view ==> s[i] in RefsFor(s, view)
  {
    if s != [] {
      RefsForMembers(s[1..], view);
      assert s == [s[0]] + s[1..];
    }
  }

  /** The stack after queueImage: old refs for the view dropped, the new ref on top. */
  function Enqueued(s: seq<ImageRef>, r: ImageRef): (e: seq<ImageRef>)
  {
    Cleaned(s, r.view) + [r]
  }

  /** The stack's invariant: no two pending refs share a view. */
  ghost predicate AtMostOnePerView(s: seq<ImageRef>)
  {
    forall i, j :: 0 <= i < j < |s| ==> s[i].view != s[j].view
  }

  /** The most recently pushed ref. */
  function Top(s: seq<ImageRef>): (r: ImageRef)
    requires s != []
  {
    s[|s| - 1]
  }

  /** The stack without its top. */
  function Below(s: seq<ImageRef>): (b: seq<ImageRef>)
    requires s != []
  {
    s[..|s| - 1]
  }

  /** The objects a worker iteration may repaint: the top ref's view and progress bar. */
  function Targets(s: seq<ImageRef>): (t: set<object>)
  {
    if s == [] then {} else {Top(s).view, Top(s).bar}
  }

  /** Clean keeps the relative order of what it keeps: it distributes over concatenation. */
  lemma {:induction false} CleanedAppend(a: seq<ImageRef>, b: seq<ImageRef>, view: ImageView)
    ensures Cleaned(a + b, view) == Cleaned(a, view) + Cleaned(b, view)
  {
    if a == [] {
      assert a + b == b;
    } else {
      assert (a + b)[1..] == a[1..] + b;
      CleanedAppend(a[1..], b, view);
    }
  }

  /** A stack holding no ref for the view is left exactly as it is. */
  lemma {:induction false} CleanedUnchanged(s: seq<ImageRef>, view: ImageView)
    requires forall i :: 0 <= i < |s| ==> s[i].view != view
    ensures Cleaned(s, view) == s
  {
    if s != [] {
      CleanedUnchanged(s[1..], view);
      assert [s[0]] + s[1..] == s;
    }
  }

  /** Cleaning twice for the same view is cleaning once. */
  lemma CleanedIdempotent(s: seq<ImageRef>, view: ImageView)
    ensures Cleaned(Cleaned(s, view), view) == Cleaned(s, view)
  {
    var c := Cleaned(s, view);
    CleanedMembers(s, view);
    CleanedUnchanged(c, view);
  }

  /** Every other view keeps all of its refs, in their original order. */
  lemma {:induction false} CleanedKeepsOtherViews(s: seq<ImageRef>, view: ImageView, other: ImageView)
    requires other != view
    ensures RefsFor(Cleaned(s, view), other) == RefsFor(s, other)
  {
    if s != [] {
      CleanedKeepsOtherViews(s[1..], view, other);
      var head := if s[0].view == view then [] else [s[0]];
      RefsForAppend(head, Cleaned(s[1..], view), other);
      assert RefsFor(head, other) == if s[0].view == other then [s[0]] else [] by {
        if head != [] { assert head[1..] == []; }
      }
    }
  }

  /** RefsFor distributes over concatenation. */
  lemma {:induction false} RefsForAppend(a: seq<ImageRef>, b: seq<ImageRef>, view: ImageView)
    ensures RefsFor(a + b, view) == RefsFor(a, view) + RefsFor(b, view)
  {
    if a == [] {
      assert a + b == b;
    } else {
      assert (a + b)[1..] == a[1..] + b;
      RefsForAppend(a[1..], b, view);
    }
  }

  /** After queueImage the view has exactly one pending ref, the new one, on top. */
  lemma EnqueuedSoleRefOnTop(s: seq<ImageRef>, r: ImageRef)
    ensures Top(Enqueued(s, r)) == r
    ensures RefsFor(Enqueued(s, r), r.view) == [r]
    ensures forall i :: 0 <= i < |Enqueued(s, r)| - 1 ==> Enqueued(s, r)[i].view != r.view
  {
    var c := Cleaned(s, r.view);
    RefsForAppend(c, [r], r.view);
    CleanedLeavesNone(s, r.view);
    CleanedMembers(s, r.view);
    assert RefsFor([r], r.view) == [r] by {
      assert [r][1..] == [];
    }
  }

  /** Clean leaves no ref for its view. */
  lemma {:induction false} CleanedLeavesNone(s: seq<ImageRef>, view: ImageView)
    ensures RefsFor(Cleaned(s, view), view) == []
  {
    if s != [] {
      var head := if s[0].view == view then [] else [s[0]];
      CleanedLeavesNone(s[1..], view);
      RefsForAppend(head, Cleaned(s[1..], view), view);
      if head != [] { assert head[1..] == []; }
    }
  }

  /** queueImage keeps the stack's invariant. */
  lemma EnqueuedKeepsAtMostOne(s: seq<ImageRef>, r: ImageRef)
    requires AtMostOnePerView(s)
    ensures AtMostOnePerView(Enqueued(s, r))
  {
    var c := Cleaned(s, r.view);
    CleanedKeepsAtMostOne(s, r.view);
    CleanedMembers(s, r.view);
    var e := c + [r];
    forall i, j | 0 <= i < j < |e| ensures e[i].view != e[j].view {
      if j == |c| {
        assert e[i] == c[i];
      } else {
        assert e[i] == c[i] && e[j] == c[j];
      }
    }
  }

  /** Cleaning never breaks the invariant. */
  lemma {:induction false} CleanedKeepsAtMostOne(s: seq<ImageRef>, view: ImageView)
    requires AtMostOnePerView(s)
    ensures AtMostOnePerView(Cleaned(s, view))
  {
    if s != [] {
      assert AtMostOnePerView(s[1..]) by {
        forall i, j | 0 <= i < j < |s[1..]| ensures s[1..][i].view != s[1..][j].view {
          assert s[1..][i] == s[i + 1] && s[1..][j] == s[j + 1];
        }
      }
      CleanedKeepsAtMostOne(s[1..], view);
      CleanedMembers(s[1..], view);
      var t := Cleaned(s[1..], view);
      if s[0].view != view {
        var e := [s[0]] + t;
        forall i, j | 0 <= i < j < |e| ensures e[i].view != e[j].view {
          if i == 0 {
            assert e[j] == t[j - 1] && t[j - 1] in t;
            var k :| 0 <= k < |s[1..]| && s[1..][k] == t[j - 1];
            assert s[k + 1] == t[j - 1];
          } else {
            assert e[i] == t[i - 1] && e[j] == t[j - 1];
          }
        }
      }
    }
  }

  /** The refs a run of `n` pops returns, most recent first, and the stack they leave. */
  function PopN(s: seq<ImageRef>, n: nat): (p: (seq<ImageRef>, seq<ImageRef>))
    requires n <= |s|
    ensures |p.0| == n
    ensures p.1 == s[..|s| - n]
    ensures forall k :: 0 <= k < n ==> p.0[k] == s[|s| - 1 - k]
  {
    if n == 0 then ([], s)
    else
      var (rest, left) := PopN(Below(s), n - 1);
      ([Top(s)] + rest, left)
  }

  /** The reverse of a sequence of refs. */
  function Reversed(s: seq<ImageRef>): (r: seq<ImageRef>)
  {
    if s == [] then [] else Reversed(s[1..]) + [s[0]]
  }

  /** A stack of refs whose views are pairwise distinct and distinct from those already in `s`,
      pushed one after the other through queueImage. */
  function EnqueueAll(s: seq<ImageRef>, rs: seq<ImageRef>): (e: seq<ImageRef>)
    decreases rs
  {
    if rs == [] then s else EnqueueAll(Enqueued(s, rs[0]), rs[1..])
  }

  /** Last in, first out: requests queued for fresh views A, B, C are popped C, B, A, and the
      stack is then back where it started. */
  lemma {:induction false} EnqueueAllThenPopAll(s: seq<ImageRef>, rs: seq<ImageRef>)
    requires AtMostOnePerView(rs)
    requires forall i, j :: 0 <= i < |s| && 0 <= j < |rs| ==> s[i].view != rs[j].view
    ensures |EnqueueAll(s, rs)| == |s| + |rs|
    ensures PopN(EnqueueAll(s, rs), |rs|) == (Reversed(rs), s)
  {
    EnqueueAllIsAppend(s, rs);
    var p := PopN(s + rs, |rs|);
    ReversedAt(rs);
    assert (s + rs)[..|s|] == s;
    assert p.0 == Reversed(rs) by {
      forall k | 0 <= k < |rs| ensures p.0[k] == Reversed(rs)[k] {
        assert (s + rs)[|s| + |rs| - 1 - k] == rs[|rs| - 1 - k];
      }
    }
  }

  /** Pushing refs for fresh, distinct views through queueImage is plain pushing. */
  lemma {:induction false} EnqueueAllIsAppend(s: seq<ImageRef>, rs: seq<ImageRef>)
    requires AtMostOnePerView(rs)
    requires forall i, j :: 0 <= i < |s| && 0 <= j < |rs| ==> s[i].view != rs[j].view
    ensures EnqueueAll(s, rs) == s + rs
    decreases rs
  {
    if rs != [] {
      CleanedUnchanged(s, rs[0].view);
      var s' := s + [rs[0]];
      assert AtMostOnePerView(rs[1..]) by {
        forall i, j | 0 <= i < j < |rs[1..]| ensures rs[1..][i].view != rs[1..][j].view {
          assert rs[1..][i] == rs[i + 1] && rs[1..][j] == rs[j + 1];
        }
      }
      forall i, j | 0 <= i < |s'| && 0 <= j < |rs[1..]| ensures s'[i].view != rs[1..][j].view {
        assert rs[1..][j] == rs[j + 1];
        if i == |s| {
          assert s'[i] == rs[0];
        } else {
          assert s'[i] == s[i];
        }
      }
      EnqueueAllIsAppend(s', rs[1..]);
      assert s' + rs[1..] == s + rs;
    }
  }

  /** Reversed keeps the length and mirrors the indices. */
  lemma {:induction false} ReversedAt(s: seq<ImageRef>)
    ensures |Reversed(s)| == |s|
    ensures forall k :: 0 <= k < |s| ==> Reversed(s)[k] == s[|s| - 1 - k]
  {
    if s != [] {
      ReversedAt(s[1..]);
    }
  }

  /** One step of Clean's scan: the suffix from `i` cleans to its first ref, if kept, and
      the cleaned rest. */
  lemma CleanedFrom(s: seq<ImageRef>, i: nat, view: ImageView)
    requires i < |s|
    ensures Cleaned(s[i..], view) == (if s[i].view == view then [] else [s[i]]) + Cleaned(s[i + 1..], view)
  {
    assert s[i..][1..] == s[i + 1..];
  }

  /** Removing the ref at `i` keeps the prefix before it and shifts the suffix after it. */
  lemma RemoveAt(s: seq<ImageRef>, i: nat)
    requires i < |s|
    ensures (s[..i] + s[i + 1..])[..i] == s[..i]
    ensures (s[..i] + s[i + 1..])[i..] == s[i + 1..]
  {
  }

  /** The request stack (ImageQueue.imageRefs), updated in place. */
  class ImageQueue {
    var refs: seq<ImageRef>

    constructor ()
      ensures refs == []
    {
      refs := [];
    }

    /** Removes every ref bound to `view`: the index only advances past a ref it keeps. */
    method Clean(view: ImageView)
      modifies this
      ensures refs == Cleaned(old(refs), view)
    {
      ghost var goal := Cleaned(refs, view);
      var i := 0;
      while i < |refs|
        invariant 0 <= i <= |refs|
        invariant refs[..i] + Cleaned(refs[i..], view) == goal
        decreases |refs| - i
      {
        ghost var before := refs;
        CleanedFrom(before, i, view);
        if refs[i].view == view {
          RemoveAt(before, i);
          refs := refs[..i] + refs[i + 1..];
          assert refs[..i] + Cleaned(refs[i..], view) == before[..i] + Cleaned(before[i..], view);
        } else {
          assert before[..i + 1] == before[..i] + [before[i]];
          i := i + 1;
          assert refs[..i] + Cleaned(refs[i..], view) == before[..i - 1] + ([before[i - 1]] + Cleaned(before[i..], view));
        }
      }
      assert refs[..i] == refs;
    }

    /** Stack.push: the new ref becomes the top. */
    method Push(r: ImageRef)
      modifies this
      ensures refs == old(refs) + [r]
    {
      refs := refs + [r];
    }

    /** Stack.pop on a non-empty stack: removes and returns the top. */
    method Pop() returns (r: ImageRef)
      requires refs != []
      modifies this
      ensures r == Top(old(refs)) && refs == Below(old(refs))
    {
      r := refs[|refs| - 1];
      refs := refs[..|refs| - 1];
    }
  }
}
