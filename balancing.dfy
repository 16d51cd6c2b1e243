/**
 * customerSuccessBalancing: validation, the filtered and sorted working list, the
 * first-fit assignment loop with its running maximum and tie list, and the result.
 */
module Balancing {
  import opened Entities
  import opened Validation
  import opened StableSort
  import opened Assignment

  /** What a call returns, or the error it throws, as a function of its inputs. */
  ghost function Balance(agents: seq<Entity>, customers: seq<Entity>, away: seq<int>): Result<int> {
    if TooManyAway(agents, away) then Failure(InsufficientStaff)
    else match ValidateParameterLimits(customers, CustomersQuantityLimit, CustomerScoreLimit, Customers)
      case Failure(e) => Failure(e)
      case Success(_) =>
        match ValidateParameterLimits(agents, CustomersSuccessQuantityLimit, CustomerSuccessScoreLimit, CustomersSuccess)
        case Failure(e) => Failure(e)
        case Success(_) =>
          var ws := SortByScore(Allowed(agents, away));
          Success(TopRankedId(ws, Tally(ws, customers)))
  }

  predicate Distinct(s: seq<int>) {
    forall a, b :: 0 <= a < b < |s| ==> s[a] != s[b]
  }

  ghost function Elements(s: seq<int>): (r: set<int>)
    ensures forall x :: x in r <==> x in s
  {
    if s == [] then {}
    else
      assert s == s[..|s| - 1] + [s[|s| - 1]];
      Elements(s[..|s| - 1]) + {s[|s| - 1]}
  }

  lemma {:induction false} DistinctElements(s: seq<int>)
    requires Distinct(s)
    ensures |Elements(s)| == |s|
  {
    if s != [] {
      var init := s[..|s| - 1];
      assert Distinct(init);
      DistinctElements(init);
      assert s[|s| - 1] !in init;
    }
  }

  /** The running maximum and tie list describe the counters. */
  ghost predicate Tracks(counts: seq<nat>, maxActions: nat, topRanked: seq<int>) {
    && maxActions == MaxCount(counts)
    && Distinct(topRanked)
    && Elements(topRanked) == Leaders(counts)
  }

  /** The counters after one more customer. */
  lemma TallyStep(ws: seq<Entity>, cs: seq<Entity>, i: int)
    requires 0 <= i < |cs|
    ensures Tally(ws, cs[..i + 1]) == match FirstFit(ws, cs[i].score)
                                      case None => Tally(ws, cs[..i])
                                      case Some(k) => Tally(ws, cs[..i])[k := Tally(ws, cs[..i])[k] + 1]
  {
    assert cs[..i + 1][..i] == cs[..i];
  }

  lemma ZeroTracks(n: nat)
    ensures Tracks(seq(n, _ => 0), 0, [])
  {
    assert Leaders(seq(n, _ => 0)) == {};
  }

  /**
   * One increment at position j and the bookkeeping that follows it keep Tracks:
   * beyond the maximum, j alone is the new list; reaching it, j is appended.
   */
  lemma TrackStep(counts: seq<nat>, maxActions: nat, topRanked: seq<int>, j: int,
                  counts': seq<nat>, maxActions': nat, topRanked': seq<int>)
    requires Tracks(counts, maxActions, topRanked) && 0 <= j < |counts|
    requires counts' == counts[j := counts[j] + 1]
    requires maxActions' == if counts'[j] > maxActions then counts'[j] else maxActions
    requires topRanked' == if counts'[j] > maxActions then [j]
                           else if counts'[j] == maxActions then topRanked + [j]
                           else topRanked
    ensures Tracks(counts', maxActions', topRanked')
  {
    IncrementKeepsLeaders(counts, j);
    if counts'[j] == maxActions {
      assert j !in Leaders(counts);
      assert Elements(topRanked + [j]) == Elements(topRanked) + {j};
    }
    if counts'[j] > maxActions {
      assert Elements([j]) == {j};
    }
  }

  /** The tie list decides the result as TopRankedId does. */
  lemma TrackedResult(ws: seq<Entity>, counts: seq<nat>, maxActions: nat, topRanked: seq<int>)
    requires |counts| == |ws| && Tracks(counts, maxActions, topRanked)
    ensures |topRanked| == 1 ==> 0 <= topRanked[0] < |ws|
    ensures TopRankedId(ws, counts) == if |topRanked| == 1 then ws[topRanked[0]].id else 0
  {
    DistinctElements(topRanked);
    if |topRanked| == 1 {
      assert topRanked == [topRanked[0]];
      assert Elements(topRanked) == {topRanked[0]};
    }
  }

  /**
   * One pass of the inner loop: the first agent of the sorted list able to serve the
   * customer gets its counter raised, and the running maximum and tie list follow;
   * when no agent is able, nothing changes.
   */
  method ServeCustomer(processed: seq<Entity>, customer: Entity, actions: array<nat>,
                       maxActions: nat, topRanked: seq<int>)
    returns (maxActions': nat, topRanked': seq<int>)
    requires actions.Length == |processed| && Tracks(actions[..], maxActions, topRanked)
    modifies actions
    ensures actions[..] == match FirstFit(processed, customer.score)
                           case None => old(actions[..])
                           case Some(k) => old(actions[..])[k := old(actions[k]) + 1]
    ensures Tracks(actions[..], maxActions', topRanked')
  {
    maxActions', topRanked' := maxActions, topRanked;
    for j := 0 to |processed|
      invariant forall k :: 0 <= k < j ==> processed[k].score < customer.score
      invariant actions[..] == old(actions[..])
      invariant maxActions' == maxActions && topRanked' == topRanked
    {
      if customer.score <= processed[j].score {
        assert FirstFit(processed, customer.score) == Some(j);
        actions[j] := actions[j] + 1;
        if actions[j] > maxActions' {
          topRanked' := [j];
          maxActions' := actions[j];
        } else if actions[j] == maxActions' {
          topRanked' := topRanked' + [j];
        }
        TrackStep(old(actions[..]), maxActions, topRanked, j, actions[..], maxActions', topRanked');
        break;
      }
    }
  }

  /**
   * The assignment loop and the result: each customer in turn is served by its first
   * fit; maxActions follows the largest counter and topRanked the positions at it;
   * the id of the one leader, or 0, is returned.
   */
  method AssignAndRank(processed: seq<Entity>, customers: seq<Entity>) returns (id: int)
    ensures id == TopRankedId(processed, Tally(processed, customers))
  {
    var actions := new nat[|processed|](_ => 0);
    var maxActions: nat := 0;
    var topRanked: seq<int> := [];
    assert actions[..] == seq(|processed|, _ => 0);
    ZeroTracks(|processed|);
    for i := 0 to |customers|
      invariant actions[..] == Tally(processed, customers[..i])
      invariant Tracks(actions[..], maxActions, topRanked)
    {
      TallyStep(processed, customers, i);
      maxActions, topRanked := ServeCustomer(processed, customers[i], actions, maxActions, topRanked);
    }
    assert customers[..|customers|] == customers;

    TrackedResult(processed, actions[..], maxActions, topRanked);
    id := if |topRanked| == 1 then processed[topRanked[0]].id else 0;
  }

  /**
   * The agents that are not away, each with a counter starting at 0, are sorted by
   * score and handed to the assignment loop.
   */
  method CustomerSuccessBalancing(customerSuccess: seq<Entity>, customers: seq<Entity>,
                                  customerSuccessAway: seq<int>) returns (r: Result<int>)
    ensures r == Balance(customerSuccess, customers, customerSuccessAway)
  {
    if TooManyAway(customerSuccess, customerSuccessAway) {
      return Failure(InsufficientStaff);
    }
    var checked := ValidateParameterLimits(customers, CustomersQuantityLimit, CustomerScoreLimit, Customers);
    if checked.Failure? {
      return Failure(checked.error);
    }
    checked := ValidateParameterLimits(customerSuccess, CustomersSuccessQuantityLimit,
                                       CustomerSuccessScoreLimit, CustomersSuccess);
    if checked.Failure? {
      return Failure(checked.error);
    }

    var allowedCS: seq<Entity> := [];
    for i := 0 to |customerSuccess|
      invariant allowedCS == Allowed(customerSuccess[..i], customerSuccessAway)
    {
      assert customerSuccess[..i + 1][..i] == customerSuccess[..i];
      var cs := customerSuccess[i];
      if cs.id !in customerSuccessAway {
        allowedCS := allowedCS + [cs];
      }
    }
    assert customerSuccess[..|customerSuccess|] == customerSuccess;
    var processed := SortByScore(allowedCS);

    var id := AssignAndRank(processed, customers);
    r := Success(id);
  }
}
