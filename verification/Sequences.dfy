/** Lists: what a loop keeps of the events it sees and where it came from, and lists without repetition. */
module Sequences {
  import opened Wire

  // ----- Filtering

  function Picked<E, M>(events: seq<E>, pick: E -> Option<M>): seq<M> {
    if events == [] then []
    else
      var picked := pick(events[|events| - 1]);
      Picked(events[..|events| - 1], pick) + if picked.Some? then [picked.value] else []
  }

  /** `kept` are the picked events, all of them and in order; `pos` says where each one is. */
  ghost predicate KeptAt<E, M>(events: seq<E>, pick: E -> Option<M>, kept: seq<M>, pos: seq<nat>) {
    && |pos| == |kept|
    && (forall i :: 0 <= i < |pos| ==> pos[i] < |events| && pick(events[pos[i]]) == Some(kept[i]))
    && (forall i, j :: 0 <= i < j < |pos| ==> pos[i] < pos[j])
    && (forall k :: 0 <= k < |events| && pick(events[k]).Some? ==> k in pos)
  }

  lemma KeptTake<E, M>(front: seq<E>, e: E, pick: E -> Option<M>, kept: seq<M>, pos: seq<nat>)
    requires KeptAt(front, pick, kept, pos) && pick(e).Some?
    ensures KeptAt(front + [e], pick, kept + [pick(e).value], pos + [|front|])
  {
    var events, longer := front + [e], pos + [|front|];
    forall k | 0 <= k < |events| && pick(events[k]).Some? ensures k in longer {
      if k < |front| {
        assert front[k] == events[k] && k in pos;
      } else {
        assert longer[|pos|] == k;
      }
    }
  }

  lemma KeptSkip<E, M>(front: seq<E>, e: E, pick: E -> Option<M>, kept: seq<M>, pos: seq<nat>)
    requires KeptAt(front, pick, kept, pos) && pick(e).None?
    ensures KeptAt(front + [e], pick, kept, pos)
  {
    forall k | 0 <= k < |front + [e]| && pick((front + [e])[k]).Some? ensures k in pos {
      assert front[k] == (front + [e])[k];
    }
  }

  lemma {:induction false} PickedKept<E, M>(events: seq<E>, pick: E -> Option<M>) returns (pos: seq<nat>)
    ensures KeptAt(events, pick, Picked(events, pick), pos)
  {
    if events == [] {
      pos := [];
    } else {
      var front, e := events[..|events| - 1], events[|events| - 1];
      assert events == front + [e];
      pos := PickedKept(front, pick);
      if pick(e).Some? {
        KeptTake(front, e, pick, Picked(front, pick), pos);
        pos := pos + [|front|];
      } else {
        KeptSkip(front, e, pick, Picked(front, pick), pos);
      }
    }
  }

  lemma LastIsLast(pos: seq<nat>, n: nat)
    requires n in pos && forall i :: 0 <= i < |pos| ==> pos[i] <= n
    requires forall i, j :: 0 <= i < j < |pos| ==> pos[i] < pos[j]
    ensures pos[|pos| - 1] == n
  {
    var i :| 0 <= i < |pos| && pos[i] == n;
    assert forall j :: 0 <= j < |pos| - 1 ==> pos[j] < pos[|pos| - 1];
  }

  lemma TakeKept<E, M>(front: seq<E>, e: E, pick: E -> Option<M>, kept: seq<M>, pos: seq<nat>)
    requires KeptAt(front + [e], pick, kept, pos) && pick(e).Some?
    ensures kept != [] && kept[|kept| - 1] == pick(e).value
    ensures KeptAt(front, pick, kept[..|kept| - 1], pos[..|pos| - 1])
  {
    var events, m := front + [e], |pos| - 1;
    assert pick(events[|front|]).Some?;
    LastIsLast(pos, |front|);
    forall k | 0 <= k < |front| && pick(front[k]).Some? ensures k in pos[..m] {
      assert front[k] == events[k] && k in pos;
      assert pos == pos[..m] + [|front|];
    }
  }

  lemma SkipKept<E, M>(front: seq<E>, e: E, pick: E -> Option<M>, kept: seq<M>, pos: seq<nat>)
    requires KeptAt(front + [e], pick, kept, pos) && pick(e).None?
    ensures KeptAt(front, pick, kept, pos)
  {
    forall k | 0 <= k < |front| && pick(front[k]).Some? ensures k in pos {
      assert front[k] == (front + [e])[k];
    }
  }

  /** There is only one list of picked events. */
  lemma {:induction false} KeptIsPicked<E, M>(events: seq<E>, pick: E -> Option<M>, kept: seq<M>, pos: seq<nat>)
    requires KeptAt(events, pick, kept, pos)
    ensures kept == Picked(events, pick)
  {
    if events != [] {
      var front, e := events[..|events| - 1], events[|events| - 1];
      assert events == front + [e];
      if pick(e).Some? {
        TakeKept(front, e, pick, kept, pos);
        KeptIsPicked(front, pick, kept[..|kept| - 1], pos[..|pos| - 1]);
        assert kept == kept[..|kept| - 1] + [kept[|kept| - 1]];
      } else {
        SkipKept(front, e, pick, kept, pos);
        KeptIsPicked(front, pick, kept, pos);
      }
    }
  }

  lemma {:induction false} PickedMember<E, M>(events: seq<E>, pick: E -> Option<M>, m: M)
    ensures m in Picked(events, pick) <==> exists k :: 0 <= k < |events| && pick(events[k]) == Some(m)
  {
    if events != [] {
      var front, e := events[..|events| - 1], events[|events| - 1];
      PickedMember(front, pick, m);
      assert forall k :: 0 <= k < |front| ==> front[k] == events[k];
    }
  }

  lemma {:induction false} PickedConcat<E, M>(a: seq<E>, b: seq<E>, pick: E -> Option<M>)
    ensures Picked(a + b, pick) == Picked(a, pick) + Picked(b, pick)
  {
    if b == [] {
      assert a + b == a;
    } else {
      var front, last := b[..|b| - 1], b[|b| - 1];
      assert (a + b)[..|a + b| - 1] == a + front && (a + b)[|a + b| - 1] == last;
      PickedConcat(a, front, pick);
    }
  }

  // ----- Lists without repetition

  lemma {:induction false} CountOnce<T>(s: seq<T>, x: T)
    requires forall i, j :: 0 <= i < j < |s| ==> s[i] != s[j]
    ensures multiset(s)[x] == if x in s then 1 else 0
  {
    if s != [] {
      var front, last := s[..|s| - 1], s[|s| - 1];
      assert s == front + [last];
      CountOnce(front, x);
      assert last !in front;
    }
  }

  /** Two lists without repetition and with the same elements are permutations of each other. */
  lemma SameElements<T>(s: seq<T>, t: seq<T>)
    requires forall i, j :: 0 <= i < j < |s| ==> s[i] != s[j]
    requires forall i, j :: 0 <= i < j < |t| ==> t[i] != t[j]
    requires forall x :: x in s <==> x in t
    ensures multiset(s) == multiset(t)
  {
    forall x ensures multiset(s)[x] == multiset(t)[x] {
      CountOnce(s, x);
      CountOnce(t, x);
    }
  }

  /** A list without repetition, as long as another that holds all its elements, is a permutation of it. */
  lemma SameLength<T>(s: seq<T>, t: seq<T>)
    requires forall i, j :: 0 <= i < j < |s| ==> s[i] != s[j]
    requires |s| == |t| && forall i :: 0 <= i < |s| ==> s[i] in t
    ensures multiset(s) == multiset(t)
  {
    forall x ensures multiset(s)[x] <= multiset(t)[x] {
      CountOnce(s, x);
    }
    var a, b := multiset(s), multiset(t);
    assert a <= b;
    assert b == a + (b - a);
    assert |b - a| == 0;
  }
}
