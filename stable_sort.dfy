/**
 * The sort applied to the working list: ascending by score, and stable, as the
 * engine's Array.prototype.sort has been required to be since ECMAScript 2019.
 * It is modelled by an insertion sort; StableSortIsUnique shows that every stable
 * sort by score yields the same list, so the engine's algorithm does not matter.
 */
module StableSort {
  import opened Entities

  predicate SortedByScore(s: seq<Entity>) {
    forall a, b :: 0 <= a < b < |s| ==> s[a].score <= s[b].score
  }

  /** The elements of s whose score is v, in their order in s. */
  function WithScore(s: seq<Entity>, v: int): seq<Entity>
  {
    if s == [] then []
    else (if s[0].score == v then [s[0]] else []) + WithScore(s[1..], v)
  }

  /** A score group is empty when no element has that score. */
  lemma {:induction false} WithScoreEmpty(s: seq<Entity>, v: int)
    requires forall k :: 0 <= k < |s| ==> s[k].score != v
    ensures WithScore(s, v) == []
  {
    if s != [] {
      WithScoreEmpty(s[1..], v);
    }
  }

  /** An element with score v makes the group of v non-empty. */
  lemma {:induction false} WithScoreNonEmpty(s: seq<Entity>, k: int)
    requires 0 <= k < |s|
    ensures WithScore(s, s[k].score) != []
  {
    if k > 0 {
      WithScoreNonEmpty(s[1..], k - 1);
    }
  }

  /** Every element of a score group has that score and comes from the list. */
  lemma {:induction false} WithScoreMembers(s: seq<Entity>, v: int, e: Entity)
    requires e in WithScore(s, v)
    ensures e in s && e.score == v
  {
    if s[0] != e || s[0].score != v {
      WithScoreMembers(s[1..], v, e);
    }
  }

  /** A sorted list with a head: every later element scores at least as much. */
  lemma ConsSorted(h: Entity, t: seq<Entity>)
    requires SortedByScore(t)
    requires forall k :: 0 <= k < |t| ==> h.score <= t[k].score
    ensures SortedByScore([h] + t)
  {
    var s := [h] + t;
    forall a, b | 0 <= a < b < |s| ensures s[a].score <= s[b].score {
      if a > 0 {
        assert s[a] == t[a - 1] && s[b] == t[b - 1];
      }
    }
  }

  lemma SortedTail(s: seq<Entity>)
    requires SortedByScore(s) && s != []
    ensures SortedByScore(s[1..])
  {
  }

  /** What is left after the head of a sorted list, plus an x at least the head, stays above the head. */
  lemma HeadBoundsRest(x: Entity, s: seq<Entity>, rest: seq<Entity>)
    requires SortedByScore(s) && s != [] && s[0].score <= x.score
    requires multiset(rest) == multiset(s[1..]) + multiset{x}
    ensures forall k :: 0 <= k < |rest| ==> s[0].score <= rest[k].score
  {
    forall k | 0 <= k < |rest| ensures s[0].score <= rest[k].score {
      assert rest[k] in multiset(rest);
      if rest[k] != x {
        var j :| 0 <= j < |s[1..]| && s[1..][j] == rest[k];
        assert s[j + 1] == rest[k];
      }
    }
  }

  /** Puts x after every element of the sorted list s whose score is at most x's. */
  function Insert(x: Entity, s: seq<Entity>): (r: seq<Entity>)
    requires SortedByScore(s)
    ensures multiset(r) == multiset(s) + multiset{x}
    ensures SortedByScore(r)
  {
    if s == [] then [x]
    else if x.score < s[0].score then
      ConsSorted(x, s);
      [x] + s
    else
      var rest := Insert(x, s[1..]);
      HeadBoundsRest(x, s, rest);
      assert s == [s[0]] + s[1..];
      ConsSorted(s[0], rest);
      [s[0]] + rest
  }

  /** Sorts s by ascending score, inserting its elements from left to right. */
  function SortByScore(s: seq<Entity>): (r: seq<Entity>)
    ensures SortedByScore(r)
    ensures multiset(r) == multiset(s)
  {
    if s == [] then []
    else
      assert s == s[..|s| - 1] + [s[|s| - 1]];
      Insert(s[|s| - 1], SortByScore(s[..|s| - 1]))
  }

  lemma {:induction false} WithScoreAppend(a: seq<Entity>, b: seq<Entity>, v: int)
    ensures WithScore(a + b, v) == WithScore(a, v) + WithScore(b, v)
  {
    if a != [] {
      assert (a + b)[0] == a[0];
      assert (a + b)[1..] == a[1..] + b;
      WithScoreAppend(a[1..], b, v);
    } else {
      assert a + b == b;
    }
  }

  lemma WithScoreCons(h: Entity, t: seq<Entity>, v: int)
    ensures WithScore([h] + t, v) == (if h.score == v then [h] else []) + WithScore(t, v)
  {
    assert ([h] + t)[1..] == t;
  }

  /** Past the head of s, Insert keeps the head and inserts into the rest. */
  lemma InsertPast(x: Entity, s: seq<Entity>)
    requires SortedByScore(s) && s != [] && s[0].score <= x.score
    ensures SortedByScore(s[1..])
    ensures Insert(x, s) == [s[0]] + Insert(x, s[1..])
  {
  }

  lemma WithScoreJoin(h: Entity, t: seq<Entity>, t': seq<Entity>, v: int, tail: seq<Entity>)
    requires WithScore(t', v) == WithScore(t, v) + tail
    ensures WithScore([h] + t', v) == WithScore([h] + t, v) + tail
  {
    WithScoreCons(h, t', v);
    WithScoreCons(h, t, v);
  }

  /** A score below the head of a sorted list is below all of it. */
  lemma BelowHead(v: int, s: seq<Entity>)
    requires SortedByScore(s) && (s == [] || v < s[0].score)
    ensures forall k :: 0 <= k < |s| ==> s[k].score != v
  {
  }

  /** In front of the head of s, or into an empty s, x is placed first. */
  lemma InsertFront(x: Entity, s: seq<Entity>)
    requires SortedByScore(s) && (s == [] || x.score < s[0].score)
    ensures Insert(x, s) == [x] + s
  {
  }

  /** Put in front of a sorted list whose scores are all above its own, x is alone in its group. */
  lemma FrontOwnGroup(x: Entity, s: seq<Entity>)
    requires SortedByScore(s) && (s == [] || x.score < s[0].score)
    ensures WithScore(s, x.score) == []
    ensures WithScore([x] + s, x.score) == [x]
  {
    BelowHead(x.score, s);
    WithScoreEmpty(s, x.score);
    WithScoreCons(x, s, x.score);
  }

  /** Inserting in front adds x to its own score group, which s has no other member of. */
  lemma InsertFrontWithScore(x: Entity, s: seq<Entity>, v: int)
    requires SortedByScore(s) && (s == [] || x.score < s[0].score)
    ensures WithScore(Insert(x, s), v) == WithScore(s, v) + (if x.score == v then [x] else [])
  {
    InsertFront(x, s);
    if x.score == v {
      FrontOwnGroup(x, s);
    } else {
      WithScoreCons(x, s, v);
    }
  }

  /** Inserting x adds x at the end of its own score's group and leaves the other groups alone. */
  lemma {:induction false} InsertWithScore(x: Entity, s: seq<Entity>, v: int)
    requires SortedByScore(s)
    ensures WithScore(Insert(x, s), v) == WithScore(s, v) + (if x.score == v then [x] else [])
  {
    if s == [] || x.score < s[0].score {
      InsertFrontWithScore(x, s, v);
    } else {
      InsertPast(x, s);
      InsertWithScore(x, s[1..], v);
      WithScoreJoin(s[0], s[1..], Insert(x, s[1..]), v, if x.score == v then [x] else []);
      assert [s[0]] + s[1..] == s;
    }
  }

  /** Stability: sorting keeps the relative order of the elements that share a score. */
  lemma {:induction false} SortByScoreIsStable(s: seq<Entity>, v: int)
    ensures WithScore(SortByScore(s), v) == WithScore(s, v)
  {
    if s != [] {
      var init, last := s[..|s| - 1], s[|s| - 1];
      var tail := if last.score == v then [last] else [];
      calc {
        WithScore(SortByScore(s), v);
        WithScore(Insert(last, SortByScore(init)), v);
        { InsertWithScore(last, SortByScore(init), v); }
        WithScore(SortByScore(init), v) + tail;
        { SortByScoreIsStable(init, v); }
        WithScore(init, v) + tail;
        { assert WithScore([last], v) == tail + WithScore([], v); }
        WithScore(init, v) + WithScore([last], v);
        { WithScoreAppend(init, [last], v); assert s == init + [last]; }
        WithScore(s, v);
      }
    }
  }

  /** Two sorted lists with the same elements in every score group are equal. */
  lemma {:induction false} SortedGroupsDetermine(t1: seq<Entity>, t2: seq<Entity>)
    requires SortedByScore(t1) && SortedByScore(t2)
    requires forall v :: WithScore(t1, v) == WithScore(t2, v)
    ensures t1 == t2
    decreases |t1| + |t2|
  {
    if t1 == [] && t2 != [] {
      WithScoreNonEmpty(t2, 0);
    } else if t1 != [] && t2 == [] {
      WithScoreNonEmpty(t1, 0);
    } else if t1 != [] {
      HeadsAgree(t1, t2);
      TailGroupsAgree(t1, t2);
      SortedTail(t1);
      SortedTail(t2);
      SortedGroupsDetermine(t1[1..], t2[1..]);
      assert t1 == [t1[0]] + t1[1..] && t2 == [t2[0]] + t2[1..];
    }
  }

  /** The head of a list heads its own score group. */
  lemma GroupHead(t: seq<Entity>)
    requires t != []
    ensures WithScore(t, t[0].score) != [] && WithScore(t, t[0].score)[0] == t[0]
  {
  }

  /** The head of a sorted list has the lowest score in it. */
  lemma HeadIsLowest(t: seq<Entity>, e: Entity)
    requires SortedByScore(t) && e in t
    ensures t[0].score <= e.score
  {
    var j :| 0 <= j < |t| && t[j] == e;
  }

  /** Two non-empty sorted lists with the same score groups start with the same element. */
  lemma HeadsAgree(t1: seq<Entity>, t2: seq<Entity>)
    requires SortedByScore(t1) && SortedByScore(t2) && t1 != [] && t2 != []
    requires forall v :: WithScore(t1, v) == WithScore(t2, v)
    ensures t1[0] == t2[0]
  {
    var v1, v2 := t1[0].score, t2[0].score;
    GroupHead(t1);
    GroupHead(t2);
    assert WithScore(t1, v1) == WithScore(t2, v1);
    assert WithScore(t2, v2) == WithScore(t1, v2);
    WithScoreMembers(t2, v1, t1[0]);
    WithScoreMembers(t1, v2, t2[0]);
    HeadIsLowest(t2, t1[0]);
    HeadIsLowest(t1, t2[0]);
  }

  /** Lists with the same head and the same score groups have tails with the same score groups. */
  lemma TailGroupsAgree(t1: seq<Entity>, t2: seq<Entity>)
    requires t1 != [] && t2 != [] && t1[0] == t2[0]
    requires forall v :: WithScore(t1, v) == WithScore(t2, v)
    ensures forall w :: WithScore(t1[1..], w) == WithScore(t2[1..], w)
  {
    forall w ensures WithScore(t1[1..], w) == WithScore(t2[1..], w) {
      var head := if t1[0].score == w then [t1[0]] else [];
      assert WithScore(t1, w) == head + WithScore(t1[1..], w);
      assert WithScore(t2, w) == head + WithScore(t2[1..], w);
      assert WithScore(t1[1..], w) == WithScore(t1, w)[|head|..];
    }
  }

  /**
   * Any list sorted by score that keeps every score group of s in its order in s is
   * SortByScore(s): a stable sort by score has exactly one possible result.
   */
  lemma StableSortIsUnique(s: seq<Entity>, t: seq<Entity>)
    requires SortedByScore(t)
    requires forall v :: WithScore(t, v) == WithScore(s, v)
    ensures t == SortByScore(s)
  {
    forall v ensures WithScore(t, v) == WithScore(SortByScore(s), v) {
      SortByScoreIsStable(s, v);
    }
    SortedGroupsDetermine(t, SortByScore(s));
  }
}
