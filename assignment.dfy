/**
 * The pieces of the balancing run as functions of their inputs: the filtered
 * working list, the first-fit choice of agent, the counters after a run of
 * customers, and the rule that turns the counters into the returned id.
 */
module Assignment {
  import opened Entities
  import opened StableSort

  /** The agents whose id is not on the away list, in input order. */
  function Allowed(agents: seq<Entity>, away: seq<int>): (r: seq<Entity>)
    ensures forall e :: e in r <==> e in agents && e.id !in away
    ensures |r| <= |agents|
  {
    if agents == [] then []
    else
      var init, last := agents[..|agents| - 1], agents[|agents| - 1];
      assert agents == init + [last];
      Allowed(init, away) + (if last.id in away then [] else [last])
  }

  /** Filtering keeps input order: it can be done piecewise and the pieces joined. */
  lemma {:induction false} AllowedAppend(a: seq<Entity>, b: seq<Entity>, away: seq<int>)
    ensures Allowed(a + b, away) == Allowed(a, away) + Allowed(b, away)
    decreases |b|
  {
    if b == [] {
      assert a + b == a;
    } else {
      var init, last := b[..|b| - 1], b[|b| - 1];
      assert (a + b)[..|a + b| - 1] == a + init;
      assert (a + b)[|a + b| - 1] == last;
      AllowedAppend(a, init, away);
    }
  }

  /** The position of the first agent in ws whose score is at least `score`, if any. */
  function FirstFit(ws: seq<Entity>, score: int): (r: Option<nat>)
    ensures r.Some? ==> r.value < |ws| && score <= ws[r.value].score
                        && forall k :: 0 <= k < r.value ==> ws[k].score < score
    ensures r.None? ==> forall k :: 0 <= k < |ws| ==> ws[k].score < score
  {
    if ws == [] then None
    else if score <= ws[0].score then Some(0)
    else
      match FirstFit(ws[1..], score)
      case None => None
      case Some(k) => Some(k + 1)
  }

  /** On a list sorted by score, the first fit is the lowest-scoring agent able to serve. */
  lemma FirstFitIsLowestCapable(ws: seq<Entity>, score: int, j: int)
    requires SortedByScore(ws)
    requires 0 <= j < |ws| && score <= ws[j].score
    ensures FirstFit(ws, score).Some?
    ensures ws[FirstFit(ws, score).value].score <= ws[j].score
  {
  }

  /** Sorting the working list neither adds nor drops an agent. */
  lemma SortedMembers(allowed: seq<Entity>)
    ensures forall e :: e in allowed <==> e in SortByScore(allowed)
  {
    var ws := SortByScore(allowed);
    forall e ensures e in allowed <==> e in ws {
      assert e in allowed <==> e in multiset(allowed);
      assert e in ws <==> e in multiset(ws);
    }
  }

  /** The first fit heads the group of agents sharing its score. */
  lemma FirstFitHeadsItsGroup(ws: seq<Entity>, score: int, k: nat)
    requires FirstFit(ws, score) == Some(k)
    ensures WithScore(ws, ws[k].score) != [] && WithScore(ws, ws[k].score)[0] == ws[k]
  {
    var v := ws[k].score;
    WithScoreAppend(ws[..k], ws[k..], v);
    assert ws == ws[..k] + ws[k..];
    WithScoreEmpty(ws[..k], v);
    assert WithScore(ws[k..], v)[0] == ws[k];
  }

  /**
   * On the sorted working list, the customer goes to an agent with the least score
   * able to serve it, and among the agents with that score to the first one in the
   * filtered input order; when no agent has a high enough score, to nobody.
   */
  lemma ChosenAgent(allowed: seq<Entity>, score: int)
    ensures var ws := SortByScore(allowed);
      match FirstFit(ws, score)
      case None => forall e :: e in allowed ==> e.score < score
      case Some(k) =>
        && (forall e :: e in allowed && score <= e.score ==> ws[k].score <= e.score)
        && WithScore(allowed, ws[k].score) != []
        && ws[k] == WithScore(allowed, ws[k].score)[0]
  {
    var ws := SortByScore(allowed);
    SortedMembers(allowed);
    match FirstFit(ws, score)
    case None =>
      forall e | e in allowed ensures e.score < score {
        var j :| 0 <= j < |ws| && ws[j] == e;
      }
    case Some(k) =>
      SortByScoreIsStable(allowed, ws[k].score);
      FirstFitHeadsItsGroup(ws, score, k);
      forall e | e in allowed && score <= e.score ensures ws[k].score <= e.score {
        var j :| 0 <= j < |ws| && ws[j] == e;
        FirstFitIsLowestCapable(ws, score, j);
      }
  }

  /** The counters, one per position of ws, after giving each customer of cs its first fit. */
  function Tally(ws: seq<Entity>, cs: seq<Entity>): (counts: seq<nat>)
    ensures |counts| == |ws|
  {
    if cs == [] then seq(|ws|, _ => 0)
    else
      var prev := Tally(ws, cs[..|cs| - 1]);
      match FirstFit(ws, cs[|cs| - 1].score)
      case None => prev
      case Some(k) => prev[k := prev[k] + 1]
  }

  function Sum(s: seq<nat>): nat {
    if s == [] then 0 else s[0] + Sum(s[1..])
  }

  lemma {:induction false} SumOfZeros(n: nat)
    ensures Sum(seq(n, _ => 0)) == 0
  {
    if n > 0 {
      assert seq(n, _ => 0)[1..] == seq(n - 1, _ => 0);
      SumOfZeros(n - 1);
    }
  }

  lemma {:induction false} SumIncrement(s: seq<nat>, k: int)
    requires 0 <= k < |s|
    ensures Sum(s[k := s[k] + 1]) == Sum(s) + 1
  {
    if k > 0 {
      assert s[k := s[k] + 1][1..] == s[1..][k - 1 := s[k] + 1];
      SumIncrement(s[1..], k - 1);
    }
  }

  /** Some agent of ws has a score high enough for the customer. */
  predicate CanServe(ws: seq<Entity>, customer: Entity) {
    exists k :: 0 <= k < |ws| && customer.score <= ws[k].score
  }

  /** How many customers of cs some agent of ws can serve. */
  function ServableCount(ws: seq<Entity>, cs: seq<Entity>): nat {
    if cs == [] then 0
    else ServableCount(ws, cs[..|cs| - 1]) + (if CanServe(ws, cs[|cs| - 1]) then 1 else 0)
  }

  /**
   * Every customer raises at most one counter: the counters add up to the number of
   * customers some agent can serve, and the rest are skipped.
   */
  lemma {:induction false} TallyTotal(ws: seq<Entity>, cs: seq<Entity>)
    ensures Sum(Tally(ws, cs)) == ServableCount(ws, cs)
  {
    if cs == [] {
      SumOfZeros(|ws|);
    } else {
      var init, last := cs[..|cs| - 1], cs[|cs| - 1];
      TallyTotal(ws, init);
      match FirstFit(ws, last.score)
      case None =>
      case Some(k) =>
        SumIncrement(Tally(ws, init), k);
    }
  }

  /** The largest counter, 0 for no counters. */
  function MaxCount(counts: seq<nat>): (m: nat)
    ensures forall k :: 0 <= k < |counts| ==> counts[k] <= m
    ensures counts == [] ==> m == 0
    ensures counts != [] ==> exists k :: 0 <= k < |counts| && counts[k] == m
  {
    if counts == [] then 0
    else
      var rest := MaxCount(counts[1..]);
      assert forall k :: 1 <= k < |counts| ==> counts[k] == counts[1..][k - 1];
      if counts[0] >= rest then counts[0] else rest
  }

  /** The positions whose counter is the largest one, provided that is positive. */
  ghost function Leaders(counts: seq<nat>): set<int> {
    set k | 0 <= k < |counts| && counts[k] > 0 && counts[k] == MaxCount(counts)
  }

  /** The id returned: that of the single leader, or 0 for a tie or when nobody leads. */
  ghost function TopRankedId(ws: seq<Entity>, counts: seq<nat>): int
    requires |counts| == |ws|
  {
    var leaders := Leaders(counts);
    if |leaders| == 1 then
      var k :| k in leaders;
      ws[k].id
    else 0
  }

  /**
   * Adding one customer to position j moves the largest counter and its leaders the
   * way the running bookkeeping does: past the maximum, j alone leads at the new
   * maximum; reaching it, j joins the leaders; otherwise nothing changes.
   */
  lemma IncrementKeepsLeaders(counts: seq<nat>, j: int)
    requires 0 <= j < |counts|
    ensures var after, m := counts[j := counts[j] + 1], MaxCount(counts);
      && MaxCount(after) == (if counts[j] + 1 > m then counts[j] + 1 else m)
      && Leaders(after) == (if counts[j] + 1 > m then {j}
                            else if counts[j] + 1 == m then Leaders(counts) + {j}
                            else Leaders(counts))
  {
    var after, m := counts[j := counts[j] + 1], MaxCount(counts);
    var m' := if counts[j] + 1 > m then counts[j] + 1 else m;
    var i :| 0 <= i < |counts| && counts[i] == m;
    assert after[if counts[j] + 1 > m then j else i] == m';
    assert MaxCount(after) == m';
  }

  /** A single position with the largest, positive counter wins. */
  lemma UniqueTopWins(ws: seq<Entity>, counts: seq<nat>, k: int)
    requires |counts| == |ws|
    requires 0 <= k < |counts| && counts[k] > 0
    requires forall j :: 0 <= j < |counts| && j != k ==> counts[j] < counts[k]
    ensures TopRankedId(ws, counts) == ws[k].id
  {
    assert MaxCount(counts) == counts[k];
    assert Leaders(counts) == {k};
  }

  /** Two positions sharing the largest, positive counter make the result 0. */
  lemma TieGivesZero(ws: seq<Entity>, counts: seq<nat>, k1: int, k2: int)
    requires |counts| == |ws|
    requires 0 <= k1 < |counts| && 0 <= k2 < |counts| && k1 != k2
    requires counts[k1] == counts[k2] > 0
    requires forall j :: 0 <= j < |counts| ==> counts[j] <= counts[k1]
    ensures TopRankedId(ws, counts) == 0
  {
    var leaders := Leaders(counts);
    assert MaxCount(counts) == counts[k1];
    assert k1 in leaders && k2 in leaders;
    assert |leaders - {k1}| == |leaders| - 1;
    assert k2 in leaders - {k1};
  }

  /** With no customer assigned the result is 0. */
  lemma NoAssignmentGivesZero(ws: seq<Entity>, counts: seq<nat>)
    requires |counts| == |ws|
    requires forall j :: 0 <= j < |counts| ==> counts[j] == 0
    ensures TopRankedId(ws, counts) == 0
  {
    assert Leaders(counts) == {};
  }

  /** A non-zero result is the id of a position whose counter is the largest and positive. */
  lemma WinnerIsALeader(ws: seq<Entity>, counts: seq<nat>)
    requires |counts| == |ws|
    requires TopRankedId(ws, counts) != 0
    ensures exists k :: 0 <= k < |ws| && counts[k] > 0 && counts[k] == MaxCount(counts)
                        && ws[k].id == TopRankedId(ws, counts)
  {
  }
}
