/**
 * The repository's example calls, worked through the model. Each lemma takes the
 * call's inputs as parameters fixed by its requires clauses, described with
 * MapEntities, ArraySeq and BuildSizeEntities, or with free scores for Scenario 10.
 */
module Scenarios {
  import opened Entities
  import opened StableSort
  import opened Assignment
  import opened Balancing
  import opened Properties

  /** The entities mapEntities builds from scores: entity i + 1 gets the i-th score. */
  predicate MapEntities(entities: seq<Entity>, scores: seq<int>) {
    |entities| == |scores| && forall i :: 0 <= i < |scores| ==> entities[i] == Entity(i + 1, scores[i])
  }

  /** arraySeq: count consecutive integers from startAt. */
  function ArraySeq(count: nat, startAt: int): seq<int> {
    seq(count, i => i + startAt)
  }

  /** buildSizeEntities: entities 1 to size, all with the same score. */
  function BuildSizeEntities(size: nat, score: int): seq<Entity> {
    seq(size, i => Entity(i + 1, score))
  }

  /** An entity built by mapEntities is determined by its id. */
  lemma MapEntitiesMember(entities: seq<Entity>, scores: seq<int>, e: Entity)
    requires MapEntities(entities, scores) && e in entities
    ensures 1 <= e.id <= |scores| && e.score == scores[e.id - 1]
    ensures e.score in scores
  {
  }

  /**
   * A call that passes validation and whose sorted working list has the first agent
   * with two counters four and two returns that agent's id.
   */
  lemma FirstOfTwoWins(agents: seq<Entity>, customers: seq<Entity>, away: seq<int>)
    requires Balance(agents, customers, away).Success?
    requires var ws := SortByScore(Allowed(agents, away));
             var counts := Tally(ws, customers);
             |ws| == 2 && counts[0] == 4 && counts[1] == 2
    ensures Balance(agents, customers, away) == Success(SortByScore(Allowed(agents, away))[0].id)
  {
    var ws := SortByScore(Allowed(agents, away));
    FirstLeadsTwo(Tally(ws, customers));
    UniqueTopWins(ws, Tally(ws, customers), 0);
  }

  // A proof step for the worked examples, not a property of the model.
  lemma FirstLeadsTwo(t: seq<nat>)
    requires |t| == 2 && t[0] == 4 && t[1] == 2
    ensures forall j :: 0 <= j < |t| && j != 0 ==> t[j] < t[0]
  {
  }

  /** One step of a worked filter: the available agents among the first i + 1. */
  lemma AllowedPrefix(agents: seq<Entity>, away: seq<int>, i: int, before: seq<Entity>, after: seq<Entity>)
    requires 0 <= i < |agents| && Allowed(agents[..i], away) == before
    requires after == if agents[i].id in away then before else before + [agents[i]]
    ensures Allowed(agents[..i + 1], away) == after
  {
    assert agents[..i + 1][..i] == agents[..i];
  }

  /** One step of a worked tally: the counters after customer i from those before it. */
  lemma TallyPrefix(ws: seq<Entity>, cs: seq<Entity>, i: int, fit: Option<nat>,
                    before: seq<nat>, after: seq<nat>)
    requires 0 <= i < |cs|
    requires Tally(ws, cs[..i]) == before && FirstFit(ws, cs[i].score) == fit
    requires after == match fit
                      case None => before
                      case Some(k) => if k < |before| then before[k := before[k] + 1] else before
    ensures Tally(ws, cs[..i + 1]) == after
  {
    assert cs[..i + 1][..i] == cs[..i];
  }

  /** A two-element list already in score order is its own sort. */
  lemma SortPair(a: Entity, b: Entity)
    requires a.score <= b.score
    ensures SortByScore([a, b]) == [a, b]
  {
    assert [a, b][..1] == [a];
    assert SortByScore([a]) == [a];
  }

  /** With agent 2 away, the first agent alone remains of the first two. */
  lemma AllowedFirstOfTwo(agents: seq<Entity>, away: seq<int>)
    requires |agents| == 4 && agents[0].id == 1 && agents[1].id == 2 && away == [2, 4]
    ensures Allowed(agents[..2], away) == [agents[0]]
  {
    AllowedPrefix(agents, away, 0, [], [agents[0]]);
    AllowedPrefix(agents, away, 1, [agents[0]], [agents[0]]);
  }

  /** With agents 2 and 4 away, the first and third agents remain, in that order. */
  lemma AllowedFirstAndThird(agents: seq<Entity>, away: seq<int>)
    requires |agents| == 4 && agents[0].id == 1 && agents[2].id == 3
    requires agents[1].id == 2 && agents[3].id == 4 && away == [2, 4]
    ensures Allowed(agents, away) == [agents[0], agents[2]]
  {
    AllowedFirstOfTwo(agents, away);
    AllowedPrefix(agents, away, 2, [agents[0]], [agents[0], agents[2]]);
    AllowedPrefix(agents, away, 3, [agents[0], agents[2]], [agents[0], agents[2]]);
    assert agents[..4] == agents;
  }

  /** Scenarios 1 and 8: with agents 2 and 4 away, agents 1 (score 60) and 3 (score 95) remain, in that order. */
  lemma WorkingListOneThree(agents: seq<Entity>, away: seq<int>)
    requires |agents| == 4 && agents[0] == Entity(1, 60) && agents[2] == Entity(3, 95)
    requires agents[1].id == 2 && agents[3].id == 4 && away == [2, 4]
    ensures var ws := SortByScore(Allowed(agents, away));
            |ws| == 2 && ws[0] == Entity(1, 60) && ws[1] == Entity(3, 95)
  {
    AllowedFirstAndThird(agents, away);
    SortPair(agents[0], agents[2]);
  }

  lemma Counts1(ws: seq<Entity>, customers: seq<Entity>)
    requires |ws| == 2 && ws[0] == Entity(1, 60) && ws[1] == Entity(3, 95)
    requires MapEntities(customers, [90, 20, 70, 40, 60, 10])
    ensures var counts := Tally(ws, customers); |counts| == 2 && counts[0] == 4 && counts[1] == 2
  {
    assert Tally(ws, customers[..0]) == [0, 0];
    TallyPrefix(ws, customers, 0, Some(1), [0, 0], [0, 1]);
    TallyPrefix(ws, customers, 1, Some(0), [0, 1], [1, 1]);
    TallyPrefix(ws, customers, 2, Some(1), [1, 1], [1, 2]);
    TallyPrefix(ws, customers, 3, Some(0), [1, 2], [2, 2]);
    TallyPrefix(ws, customers, 4, Some(0), [2, 2], [3, 2]);
    TallyPrefix(ws, customers, 5, Some(0), [3, 2], [4, 2]);
    assert customers[..6] == customers;
  }

  /**
   * Scenario 1: agents 2 and 4 are away; agent 1 serves four customers, agent 3 two.
   * The test writes its records out literally, with ids 1 to n as MapEntities describes.
   */
  lemma Scenario1(agents: seq<Entity>, customers: seq<Entity>, away: seq<int>)
    requires MapEntities(agents, [60, 20, 95, 75])
    requires MapEntities(customers, [90, 20, 70, 40, 60, 10])
    requires away == [2, 4]
    ensures Balance(agents, customers, away) == Success(1)
  {
    MappedCallPasses(agents, [60, 20, 95, 75], customers, [90, 20, 70, 40, 60, 10], away);
    WorkingListOneThree(agents, away);
    Counts1(SortByScore(Allowed(agents, away)), customers);
    FirstOfTwoWins(agents, customers, away);
  }

  lemma Counts8(ws: seq<Entity>, customers: seq<Entity>)
    requires |ws| == 2 && ws[0] == Entity(1, 60) && ws[1] == Entity(3, 95)
    requires MapEntities(customers, [90, 70, 20, 40, 60, 10])
    ensures var counts := Tally(ws, customers); |counts| == 2 && counts[0] == 4 && counts[1] == 2
  {
    assert Tally(ws, customers[..0]) == [0, 0];
    TallyPrefix(ws, customers, 0, Some(1), [0, 0], [0, 1]);
    TallyPrefix(ws, customers, 1, Some(1), [0, 1], [0, 2]);
    TallyPrefix(ws, customers, 2, Some(0), [0, 2], [1, 2]);
    TallyPrefix(ws, customers, 3, Some(0), [1, 2], [2, 2]);
    TallyPrefix(ws, customers, 4, Some(0), [2, 2], [3, 2]);
    TallyPrefix(ws, customers, 5, Some(0), [3, 2], [4, 2]);
    assert customers[..6] == customers;
  }

  /** Scenario 8: Scenario 1 with agent 2 scoring 40 and the customers in another order; still agent 1. */
  lemma Scenario8(agents: seq<Entity>, customers: seq<Entity>, away: seq<int>)
    requires MapEntities(agents, [60, 40, 95, 75])
    requires MapEntities(customers, [90, 70, 20, 40, 60, 10])
    requires away == [2, 4]
    ensures Balance(agents, customers, away) == Success(1)
  {
    MappedCallPasses(agents, [60, 40, 95, 75], customers, [90, 70, 20, 40, 60, 10], away);
    WorkingListOneThree(agents, away);
    Counts8(SortByScore(Allowed(agents, away)), customers);
    FirstOfTwoWins(agents, customers, away);
  }

  /** A call on mapped entities with few enough agents away, and lists and scores under their ceilings, passes validation. */
  lemma MappedCallPasses(agents: seq<Entity>, agentScores: seq<int>,
                         customers: seq<Entity>, customerScores: seq<int>, away: seq<int>)
    requires MapEntities(agents, agentScores) && MapEntities(customers, customerScores)
    requires 2 * |away| <= |agents|
    requires |agentScores| < CustomersSuccessQuantityLimit && |customerScores| < CustomersQuantityLimit
    requires forall x :: x in agentScores ==> x < CustomerSuccessScoreLimit
    requires forall x :: x in customerScores ==> x < CustomerScoreLimit
    ensures Balance(agents, customers, away).Success?
  {
    ValidationOrder(agents, customers, away);
    assert forall k :: 0 <= k < |agents| ==> agents[k].score in agentScores;
    assert forall k :: 0 <= k < |customers| ==> customers[k].score in customerScores;
  }

  /** With nobody away, filtering keeps every agent. */
  lemma {:induction false} NobodyAway(agents: seq<Entity>, away: seq<int>)
    requires forall e :: e in agents ==> e.id !in away
    ensures Allowed(agents, away) == agents
  {
    if agents != [] {
      NobodyAway(agents[..|agents| - 1], away);
      assert agents == agents[..|agents| - 1] + [agents[|agents| - 1]];
    }
  }

  /** One step of a worked sort: the sorted first i + 1 agents from the sorted first i. */
  lemma SortPrefix(s: seq<Entity>, i: int)
    requires 0 <= i < |s|
    ensures SortByScore(s[..i + 1]) == Insert(s[i], SortByScore(s[..i]))
  {
    assert s[..i + 1][..i] == s[..i];
  }

  // A proof step for the worked examples, not a property of the model.
  lemma Prepend2(a: Entity, b: Entity, t: seq<Entity>)
    requires |t| == 3
    ensures [a] + ([b] + t) == [a, b, t[0], t[1], t[2]]
  {
  }

  // A proof step for the worked examples, not a property of the model.
  lemma SixIndices(r: seq<Entity>, a: Entity, b: Entity, c: Entity, d: Entity, e: Entity, f: Entity)
    requires r == [a, b, c, d, e, f]
    ensures |r| == 6 && r[0] == a && r[1] == b && r[2] == c && r[3] == d && r[4] == e && r[5] == f
  {
  }

  // A proof step for the worked examples, not a property of the model.
  lemma WholePrefix(s: seq<Entity>)
    ensures s[..|s|] == s
  {
  }

  // A proof step for the worked examples, not a property of the model.
  lemma Prepend3(a: Entity, b: Entity, c: Entity, t: seq<Entity>)
    requires |t| == 3
    ensures [a] + ([b] + ([c] + t)) == [a, b, c, t[0], t[1], t[2]]
  {
  }

  lemma SortSteps2a(s: seq<Entity>)
    requires |s| == 6 && s[0].score == 11 && s[1].score == 21 && s[2].score == 31
    ensures SortByScore(s[..3]) == [s[0], s[1], s[2]]
  {
    assert s[..0] == [];
    SortPrefix(s, 0);
    InsertFront(s[0], []);
    SortPrefix(s, 1);
    var b1 := SortByScore(s[..1]);
    InsertPast(s[1], b1);
    InsertFront(s[1], b1[1..]);
    SortPrefix(s, 2);
    var b2 := SortByScore(s[..2]);
    InsertPast(s[2], b2);
    InsertPast(s[2], b2[1..]);
    InsertFront(s[2], b2[1..][1..]);
  }

  lemma SortSteps2b(s: seq<Entity>)
    requires |s| == 6 && s[0].score == 11 && s[3].score == 3 && s[4].score == 4
    requires SortByScore(s[..3]) == [s[0], s[1], s[2]]
    ensures SortByScore(s[..5]) == [s[3], s[4], s[0], s[1], s[2]]
  {
    SortPrefix(s, 3);
    var b3 := SortByScore(s[..3]);
    InsertFront(s[3], b3);
    SortPrefix(s, 4);
    var b4 := SortByScore(s[..4]);
    assert b4 == [s[3]] + b3;
    InsertPast(s[4], b4);
    assert b4[1..] == b3;
    InsertFront(s[4], b3);
    assert SortByScore(s[..5]) == [s[3]] + ([s[4]] + b3);
    Prepend2(s[3], s[4], [s[0], s[1], s[2]]);
  }

  lemma SortSteps2c(s: seq<Entity>)
    requires |s| == 6 && s[0].score == 11 && s[3].score == 3 && s[4].score == 4 && s[5].score == 5
    requires SortByScore(s[..5]) == [s[3], s[4], s[0], s[1], s[2]]
    ensures SortByScore(s) == [s[3], s[4], s[5], s[0], s[1], s[2]]
  {
    SortPrefix(s, 5);
    var b5 := SortByScore(s[..5]);
    InsertPast(s[5], b5);
    InsertPast(s[5], b5[1..]);
    var rest := b5[1..][1..];
    assert |rest| == 3 && rest[0] == s[0] && rest[1] == s[1] && rest[2] == s[2];
    InsertFront(s[5], rest);
    assert SortByScore(s[..6]) == [s[3]] + ([s[4]] + ([s[5]] + rest));
    Prepend3(s[3], s[4], s[5], rest);
    WholePrefix(s);
  }

  /** Scenario 2's agents sort as 4, 5, 6, 1, 2, 3. */
  lemma WorkingList2(s: seq<Entity>)
    requires |s| == 6 && s[0].score == 11 && s[1].score == 21 && s[2].score == 31
    requires s[3].score == 3 && s[4].score == 4 && s[5].score == 5
    ensures var r := SortByScore(s);
            |r| == 6 && r[0] == s[3] && r[1] == s[4] && r[2] == s[5] && r[3] == s[0] && r[4] == s[1] && r[5] == s[2]
  {
    SortSteps2a(s);
    SortSteps2b(s);
    SortSteps2c(s);
    SixIndices(SortByScore(s), s[3], s[4], s[5], s[0], s[1], s[2]);
  }

  /** Scenario 2's customers fit agents 1, 2 and 3 by score, and none fits a score of 60. */
  lemma Fits2(ws: seq<Entity>)
    requires |ws| == 6 && ws[0].score == 3 && ws[1].score == 4 && ws[2].score == 5
    requires ws[3].score == 11 && ws[4].score == 21 && ws[5].score == 31
    ensures FirstFit(ws, 10) == Some(3) && FirstFit(ws, 20) == Some(4)
    ensures FirstFit(ws, 30) == Some(5) && FirstFit(ws, 60) == None
  {
  }

  lemma Counts2a(ws: seq<Entity>, customers: seq<Entity>)
    requires |ws| == 6 && FirstFit(ws, 10) == Some(3)
    requires |customers| == 10 && customers[0].score == 10 && customers[1].score == 10 && customers[2].score == 10
    ensures var t := Tally(ws, customers[..3]);
            t[0] == 0 && t[1] == 0 && t[2] == 0 && t[3] == 3 && t[4] == 0 && t[5] == 0
  {
    assert customers[..0] == [];
    TallyStep(ws, customers, 0);
    TallyStep(ws, customers, 1);
    TallyStep(ws, customers, 2);
  }

  lemma Counts2ab(ws: seq<Entity>, customers: seq<Entity>)
    requires |ws| == 6 && FirstFit(ws, 20) == Some(4)
    requires |customers| == 10 && customers[3].score == 20 && customers[4].score == 20
    requires var t := Tally(ws, customers[..3]);
             t[0] == 0 && t[1] == 0 && t[2] == 0 && t[3] == 3 && t[4] == 0 && t[5] == 0
    ensures var t := Tally(ws, customers[..5]);
            t[0] == 0 && t[1] == 0 && t[2] == 0 && t[3] == 3 && t[4] == 2 && t[5] == 0
  {
    TallyStep(ws, customers, 3);
    TallyStep(ws, customers, 4);
  }

  lemma Counts2b(ws: seq<Entity>, customers: seq<Entity>)
    requires |ws| == 6 && FirstFit(ws, 20) == Some(4) && FirstFit(ws, 30) == Some(5) && FirstFit(ws, 60) == None
    requires |customers| == 10 && customers[5].score == 30 && customers[6].score == 30
    requires customers[7].score == 30 && customers[8].score == 20 && customers[9].score == 60
    requires var t := Tally(ws, customers[..5]);
             t[0] == 0 && t[1] == 0 && t[2] == 0 && t[3] == 3 && t[4] == 2 && t[5] == 0
    ensures var t := Tally(ws, customers);
            t[0] == 0 && t[1] == 0 && t[2] == 0 && t[3] == 3 && t[4] == 3 && t[5] == 3
  {
    TallyStep(ws, customers, 5);
    TallyStep(ws, customers, 6);
    TallyStep(ws, customers, 7);
    TallyStep(ws, customers, 8);
    TallyStep(ws, customers, 9);
    WholePrefix(customers);
  }

  /** Scenario 2's counters: agents 1, 2 and 3, at positions 3 to 5 of the sorted list, get three customers each. */
  lemma Counts2(ws: seq<Entity>, customers: seq<Entity>)
    requires |ws| == 6 && ws[0].score == 3 && ws[1].score == 4 && ws[2].score == 5
    requires ws[3].score == 11 && ws[4].score == 21 && ws[5].score == 31
    requires MapEntities(customers, [10, 10, 10, 20, 20, 30, 30, 30, 20, 60])
    ensures var t := Tally(ws, customers);
            t[0] == 0 && t[1] == 0 && t[2] == 0 && t[3] == 3 && t[4] == 3 && t[5] == 3
  {
    Fits2(ws);
    MappedScores(customers, [10, 10, 10, 20, 20, 30, 30, 30, 20, 60]);
    Counts2a(ws, customers);
    Counts2ab(ws, customers);
    Counts2b(ws, customers);
  }

  // A proof step for the worked examples, not a property of the model.
  lemma TopIsThree(t: seq<nat>)
    requires |t| == 6 && t[0] == 0 && t[1] == 0 && t[2] == 0 && t[3] == 3 && t[4] == 3 && t[5] == 3
    ensures forall j :: 0 <= j < |t| ==> t[j] <= t[3]
  {
  }

  /** A call that passes validation and whose counters put positions k1 and k2 level at the top returns 0. */
  lemma TiedCallGivesZero(agents: seq<Entity>, customers: seq<Entity>, away: seq<int>, k1: int, k2: int)
    requires Balance(agents, customers, away).Success?
    requires var ws := SortByScore(Allowed(agents, away));
             var counts := Tally(ws, customers);
             && 0 <= k1 < |ws| && 0 <= k2 < |ws| && k1 != k2 && counts[k1] == counts[k2] > 0
             && forall j :: 0 <= j < |ws| ==> counts[j] <= counts[k1]
    ensures Balance(agents, customers, away) == Success(0)
  {
    var ws := SortByScore(Allowed(agents, away));
    TieGivesZero(ws, Tally(ws, customers), k1, k2);
  }

  lemma AgentScores2(agents: seq<Entity>)
    requires MapEntities(agents, [11, 21, 31, 3, 4, 5])
    ensures |agents| == 6
    ensures agents[0].score == 11 && agents[1].score == 21 && agents[2].score == 31
    ensures agents[3].score == 3 && agents[4].score == 4 && agents[5].score == 5
  {
  }

  /** Scenario 2: agents 1, 2 and 3 serve three customers each; the tie gives 0. */
  lemma Scenario2(agents: seq<Entity>, customers: seq<Entity>, away: seq<int>)
    requires MapEntities(agents, [11, 21, 31, 3, 4, 5])
    requires MapEntities(customers, [10, 10, 10, 20, 20, 30, 30, 30, 20, 60])
    requires away == []
    ensures Balance(agents, customers, away) == Success(0)
  {
    MappedCallPasses(agents, [11, 21, 31, 3, 4, 5], customers, [10, 10, 10, 20, 20, 30, 30, 30, 20, 60], away);
    NobodyAway(agents, away);
    AgentScores2(agents);
    WorkingList2(agents);
    Counts2(SortByScore(Allowed(agents, away)), customers);
    TopIsThree(Tally(SortByScore(Allowed(agents, away)), customers));
    TiedCallGivesZero(agents, customers, away, 3, 4);
  }

  /** The scores of entities built by mapEntities, position by position. */
  lemma MappedScores(entities: seq<Entity>, scores: seq<int>)
    requires MapEntities(entities, scores)
    ensures |entities| == |scores| && forall i :: 0 <= i < |scores| ==> entities[i].score == scores[i]
  {
  }

  /** Scenario 3: 998 agents available, all 10000 customers fit agent 998 alone. */
  lemma Scenario3(agents: seq<Entity>, customers: seq<Entity>, away: seq<int>)
    requires MapEntities(agents, ArraySeq(999, 1))
    requires customers == BuildSizeEntities(10000, 998)
    requires away == [999]
    ensures Balance(agents, customers, away) == Success(998)
  {
    ValidationOrder(agents, customers, away);
    assert agents[997] == Entity(998, 998);
    SoleServerWins(agents, customers, away, Entity(998, 998));
  }

  /** In Scenario 4, no agent scores as high as any customer. */
  lemma NobodyServes4(agents: seq<Entity>, customers: seq<Entity>, away: seq<int>)
    requires MapEntities(agents, [1, 2, 3, 4, 5, 6])
    requires MapEntities(customers, [10, 10, 10, 20, 20, 30, 30, 30, 20, 60])
    requires away == []
    ensures forall a, c :: a in agents && a.id !in away && c in customers ==> a.score < c.score
  {
    forall a, c | a in agents && a.id !in away && c in customers ensures a.score < c.score {
      MapEntitiesMember(agents, [1, 2, 3, 4, 5, 6], a);
      MapEntitiesMember(customers, [10, 10, 10, 20, 20, 30, 30, 30, 20, 60], c);
    }
  }

  /** Scenario 4: no agent scores as high as the easiest customer. */
  lemma Scenario4(agents: seq<Entity>, customers: seq<Entity>, away: seq<int>)
    requires MapEntities(agents, [1, 2, 3, 4, 5, 6])
    requires MapEntities(customers, [10, 10, 10, 20, 20, 30, 30, 30, 20, 60])
    requires away == []
    ensures Balance(agents, customers, away) == Success(0)
  {
    MappedCallPasses(agents, [1, 2, 3, 4, 5, 6], customers, [10, 10, 10, 20, 20, 30, 30, 30, 20, 60], away);
    NobodyServes4(agents, customers, away);
    NothingServableGivesZero(agents, customers, away);
  }

  /** In Scenario 5, Entity(1, 100) can serve every customer, and each other available agent outscores it or serves nobody. */
  lemma SoleServer5(agents: seq<Entity>, customers: seq<Entity>, away: seq<int>)
    requires MapEntities(agents, [100, 2, 3, 6, 4, 5])
    requires MapEntities(customers, [10, 10, 10, 20, 20, 30, 30, 30, 20, 60])
    requires away == []
    ensures Entity(1, 100) in agents && Entity(1, 100).id !in away
    ensures forall c :: c in customers ==> c.score <= Entity(1, 100).score
    ensures forall b :: b in agents && b.id !in away && b != Entity(1, 100) ==>
              Entity(1, 100).score < b.score || forall c :: c in customers ==> b.score < c.score
  {
    assert agents[0] == Entity(1, 100);
    forall c | c in customers ensures c.score <= Entity(1, 100).score {
      MapEntitiesMember(customers, [10, 10, 10, 20, 20, 30, 30, 30, 20, 60], c);
    }
    forall b | b in agents && b.id !in away && b != Entity(1, 100)
      ensures Entity(1, 100).score < b.score || forall c :: c in customers ==> b.score < c.score
    {
      MapEntitiesMember(agents, [100, 2, 3, 6, 4, 5], b);
      forall c | c in customers ensures Entity(1, 100).score < b.score || b.score < c.score {
        MapEntitiesMember(customers, [10, 10, 10, 20, 20, 30, 30, 30, 20, 60], c);
      }
    }
  }

  /** Scenario 5: only agent 1 can serve anybody. */
  lemma Scenario5(agents: seq<Entity>, customers: seq<Entity>, away: seq<int>)
    requires MapEntities(agents, [100, 2, 3, 6, 4, 5])
    requires MapEntities(customers, [10, 10, 10, 20, 20, 30, 30, 30, 20, 60])
    requires away == []
    ensures Balance(agents, customers, away) == Success(Entity(1, 100).id)
  {
    MappedCallPasses(agents, [100, 2, 3, 6, 4, 5], customers, [10, 10, 10, 20, 20, 30, 30, 30, 20, 60], away);
    SoleServer5(agents, customers, away);
    SoleServerWins(agents, customers, away, Entity(1, 100));
  }

  /** In Scenario 6, every available agent scores below every customer. */
  lemma NobodyServes6(agents: seq<Entity>, customers: seq<Entity>, away: seq<int>)
    requires MapEntities(agents, [100, 99, 88, 3, 4, 5])
    requires MapEntities(customers, [10, 10, 10, 20, 20, 30, 30, 30, 20, 60])
    requires away == [1, 3, 2]
    ensures forall a, c :: a in agents && a.id !in away && c in customers ==> a.score < c.score
  {
    forall a, c | a in agents && a.id !in away && c in customers ensures a.score < c.score {
      MapEntitiesMember(agents, [100, 99, 88, 3, 4, 5], a);
      MapEntitiesMember(customers, [10, 10, 10, 20, 20, 30, 30, 30, 20, 60], c);
    }
  }

  /** Scenario 6: the three agents able to serve are away. */
  lemma Scenario6(agents: seq<Entity>, customers: seq<Entity>, away: seq<int>)
    requires MapEntities(agents, [100, 99, 88, 3, 4, 5])
    requires MapEntities(customers, [10, 10, 10, 20, 20, 30, 30, 30, 20, 60])
    requires away == [1, 3, 2]
    ensures Balance(agents, customers, away) == Success(0)
  {
    MappedCallPasses(agents, [100, 99, 88, 3, 4, 5], customers, [10, 10, 10, 20, 20, 30, 30, 30, 20, 60], away);
    NobodyServes6(agents, customers, away);
    NothingServableGivesZero(agents, customers, away);
  }

  /** In Scenario 7, Entity(3, 88) can serve every customer, and each other available agent outscores it or serves nobody. */
  lemma SoleServer7(agents: seq<Entity>, customers: seq<Entity>, away: seq<int>)
    requires MapEntities(agents, [100, 99, 88, 3, 4, 5])
    requires MapEntities(customers, [10, 10, 10, 20, 20, 30, 30, 30, 20, 60])
    requires away == [4, 5, 6]
    ensures Entity(3, 88) in agents && Entity(3, 88).id !in away
    ensures forall c :: c in customers ==> c.score <= Entity(3, 88).score
    ensures forall b :: b in agents && b.id !in away && b != Entity(3, 88) ==>
              Entity(3, 88).score < b.score || forall c :: c in customers ==> b.score < c.score
  {
    assert agents[2] == Entity(3, 88);
    forall c | c in customers ensures c.score <= Entity(3, 88).score {
      MapEntitiesMember(customers, [10, 10, 10, 20, 20, 30, 30, 30, 20, 60], c);
    }
    forall b | b in agents && b.id !in away && b != Entity(3, 88)
      ensures Entity(3, 88).score < b.score || forall c :: c in customers ==> b.score < c.score
    {
      MapEntitiesMember(agents, [100, 99, 88, 3, 4, 5], b);
      forall c | c in customers ensures Entity(3, 88).score < b.score || b.score < c.score {
        MapEntitiesMember(customers, [10, 10, 10, 20, 20, 30, 30, 30, 20, 60], c);
      }
    }
  }

  /** Scenario 7: of the three available agents, agent 3 has the lowest score and serves everybody. */
  lemma Scenario7(agents: seq<Entity>, customers: seq<Entity>, away: seq<int>)
    requires MapEntities(agents, [100, 99, 88, 3, 4, 5])
    requires MapEntities(customers, [10, 10, 10, 20, 20, 30, 30, 30, 20, 60])
    requires away == [4, 5, 6]
    ensures Balance(agents, customers, away) == Success(Entity(3, 88).id)
  {
    MappedCallPasses(agents, [100, 99, 88, 3, 4, 5], customers, [10, 10, 10, 20, 20, 30, 30, 30, 20, 60], away);
    SoleServer7(agents, customers, away);
    SoleServerWins(agents, customers, away, Entity(3, 88));
  }

  /** Scenario 9: 1000 agents reach the agents' quantity ceiling. */
  lemma Scenario9(agents: seq<Entity>, customers: seq<Entity>, away: seq<int>)
    requires MapEntities(agents, ArraySeq(1000, 1))
    requires MapEntities(customers, [90, 70])
    requires away == [2, 4]
    ensures Balance(agents, customers, away) == Failure(QuantityLimitExceeded(CustomersSuccess, 1000))
  {
    ValidationOrder(agents, customers, away);
  }

  /** Scenario 10: a million customers, whatever their scores, reach the customers' quantity ceiling. */
  lemma Scenario10(agents: seq<Entity>, customers: seq<Entity>, away: seq<int>)
    requires MapEntities(agents, [60, 40, 95, 75])
    requires |customers| == 1000000
    requires away == []
    ensures Balance(agents, customers, away) == Failure(QuantityLimitExceeded(Customers, 1000000))
  {
    ValidationOrder(agents, customers, away);
  }

  /** Scenario 11: the last of 999 agents has score 10000, the agents' score ceiling. */
  lemma Scenario11(agents: seq<Entity>, customers: seq<Entity>, away: seq<int>)
    requires MapEntities(agents, ArraySeq(999, 9002))
    requires MapEntities(customers, [90, 70])
    requires away == []
    ensures Balance(agents, customers, away) == Failure(ScoreLimitExceeded(CustomersSuccess, 10000))
  {
    ValidationOrder(agents, customers, away);
    assert agents[998].score == 10000;
  }

  /** Scenario 12: the last of 100000 customers has score 100000, the customers' score ceiling. */
  lemma Scenario12(agents: seq<Entity>, customers: seq<Entity>, away: seq<int>)
    requires MapEntities(agents, [90, 70, 60, 20])
    requires MapEntities(customers, ArraySeq(100000, 1))
    requires away == []
    ensures Balance(agents, customers, away) == Failure(ScoreLimitExceeded(Customers, 100000))
  {
    ValidationOrder(agents, customers, away);
    assert customers[99999].score == 100000;
  }

  /** Scenario 13: three of five agents away is too many, though none of those ids exists. */
  lemma Scenario13(agents: seq<Entity>, customers: seq<Entity>, away: seq<int>)
    requires MapEntities(agents, [10, 20, 30, 40, 50])
    requires MapEntities(customers, [5, 10, 15, 20, 25, 30, 35, 40, 45, 50])
    requires away == [10, 30, 50]
    ensures Balance(agents, customers, away) == Failure(InsufficientStaff)
  {
    AwayCheckComesFirst(agents, customers, away);
  }
}
