/** What a call of customerSuccessBalancing promises, stated over all inputs. */
module Properties {
  import opened Entities
  import opened Validation
  import opened StableSort
  import opened Assignment
  import opened Balancing

  /** The staffing check runs first: it alone produces InsufficientStaff, exactly when too many are away. */
  lemma AwayCheckComesFirst(agents: seq<Entity>, customers: seq<Entity>, away: seq<int>)
    ensures Balance(agents, customers, away) == Failure(InsufficientStaff) <==> 2 * |away| > |agents|
  {
  }

  /**
   * After the staffing check: the customers' quantity, then the customers' scores,
   * then the agents' quantity, then the agents' scores; each ceiling is exclusive.
   */
  lemma ValidationOrder(agents: seq<Entity>, customers: seq<Entity>, away: seq<int>)
    requires 2 * |away| <= |agents|
    ensures |customers| >= CustomersQuantityLimit ==>
      Balance(agents, customers, away) == Failure(QuantityLimitExceeded(Customers, CustomersQuantityLimit))
    ensures |customers| < CustomersQuantityLimit
            && (exists k :: 0 <= k < |customers| && customers[k].score >= CustomerScoreLimit) ==>
      Balance(agents, customers, away) == Failure(ScoreLimitExceeded(Customers, CustomerScoreLimit))
    ensures WithinLimits(customers, CustomersQuantityLimit, CustomerScoreLimit)
            && |agents| >= CustomersSuccessQuantityLimit ==>
      Balance(agents, customers, away) == Failure(QuantityLimitExceeded(CustomersSuccess, CustomersSuccessQuantityLimit))
    ensures WithinLimits(customers, CustomersQuantityLimit, CustomerScoreLimit)
            && |agents| < CustomersSuccessQuantityLimit
            && (exists k :: 0 <= k < |agents| && agents[k].score >= CustomerSuccessScoreLimit) ==>
      Balance(agents, customers, away) == Failure(ScoreLimitExceeded(CustomersSuccess, CustomerSuccessScoreLimit))
    ensures Balance(agents, customers, away).Success? <==>
      WithinLimits(customers, CustomersQuantityLimit, CustomerScoreLimit)
      && WithinLimits(agents, CustomersSuccessQuantityLimit, CustomerSuccessScoreLimit)
  {
  }

  /** A non-zero result is the id of an agent of the input that is not away. */
  lemma ResultIsAvailableAgent(agents: seq<Entity>, customers: seq<Entity>, away: seq<int>, id: int)
    requires Balance(agents, customers, away) == Success(id) && id != 0
    ensures id !in away
    ensures exists a :: a in agents && a.id == id
  {
    var allowed := Allowed(agents, away);
    var ws := SortByScore(allowed);
    WinnerIsALeader(ws, Tally(ws, customers));
    var k :| 0 <= k < |ws| && ws[k].id == id;
    SortedMembers(allowed);
    assert ws[k] in allowed;
  }

  /** No counter moves when no customer fits any agent. */
  lemma {:induction false} TallyWhenNothingFits(ws: seq<Entity>, cs: seq<Entity>)
    requires forall i :: 0 <= i < |cs| ==> FirstFit(ws, cs[i].score) == None
    ensures forall k :: 0 <= k < |ws| ==> Tally(ws, cs)[k] == 0
  {
    if cs != [] {
      TallyWhenNothingFits(ws, cs[..|cs| - 1]);
    }
  }

  /**
   * With no available agent able to serve any customer (in particular with every
   * agent away), nobody is assigned and the result is 0.
   */
  lemma NothingServableGivesZero(agents: seq<Entity>, customers: seq<Entity>, away: seq<int>)
    requires Balance(agents, customers, away).Success?
    requires forall a, c :: a in agents && a.id !in away && c in customers ==> a.score < c.score
    ensures Balance(agents, customers, away) == Success(0)
  {
    var allowed := Allowed(agents, away);
    var ws := SortByScore(allowed);
    forall i | 0 <= i < |customers| ensures FirstFit(ws, customers[i].score) == None {
      ChosenAgent(allowed, customers[i].score);
      if FirstFit(ws, customers[i].score).Some? {
        var e := WithScore(allowed, ws[FirstFit(ws, customers[i].score).value].score)[0];
        WithScoreMembers(allowed, ws[FirstFit(ws, customers[i].score).value].score, e);
      }
    }
    TallyWhenNothingFits(ws, customers);
    NoAssignmentGivesZero(ws, Tally(ws, customers));
  }

  /** With every agent away the result is 0. */
  lemma AllAwayGivesZero(agents: seq<Entity>, customers: seq<Entity>, away: seq<int>)
    requires Balance(agents, customers, away).Success?
    requires forall a :: a in agents ==> a.id in away
    ensures Balance(agents, customers, away) == Success(0)
  {
    NothingServableGivesZero(agents, customers, away);
  }

  /** When every customer has the same first fit, that position alone counts them all. */
  lemma {:induction false} TallyOneFit(ws: seq<Entity>, cs: seq<Entity>, k: int)
    requires 0 <= k < |ws|
    requires forall i :: 0 <= i < |cs| ==> FirstFit(ws, cs[i].score) == Some(k)
    ensures forall j :: 0 <= j < |ws| ==> Tally(ws, cs)[j] == if j == k then |cs| else 0
  {
    if cs != [] {
      TallyOneFit(ws, cs[..|cs| - 1], k);
    }
  }

  /** The agent able to serve every customer, alone at its score level, is the first fit for its own score. */
  lemma SoleServerPosition(ws: seq<Entity>, customers: seq<Entity>, a: Entity) returns (k: nat)
    requires SortedByScore(ws) && customers != [] && a in ws
    requires forall c :: c in customers ==> c.score <= a.score
    requires forall b :: b in ws && b != a ==>
               a.score < b.score || forall c :: c in customers ==> b.score < c.score
    ensures FirstFit(ws, a.score) == Some(k) && ws[k] == a
  {
    var ia :| 0 <= ia < |ws| && ws[ia] == a;
    FirstFitIsLowestCapable(ws, a.score, ia);
    k := FirstFit(ws, a.score).value;
    assert customers[0] in customers;
  }

  /** Every customer's first fit is that same position. */
  lemma SoleServerFits(ws: seq<Entity>, customers: seq<Entity>, a: Entity, k: nat)
    requires FirstFit(ws, a.score) == Some(k) && ws[k] == a
    requires forall c :: c in customers ==> c.score <= a.score
    requires forall b :: b in ws && b != a ==>
               a.score < b.score || forall c :: c in customers ==> b.score < c.score
    ensures forall i :: 0 <= i < |customers| ==> FirstFit(ws, customers[i].score) == Some(k)
  {
    forall i | 0 <= i < |customers| ensures FirstFit(ws, customers[i].score) == Some(k) {
      var c := customers[i];
      assert c in customers;
      forall j | 0 <= j < k ensures ws[j].score < c.score {
        assert ws[j] in ws;
      }
    }
  }

  /** On a sorted working list, the sole agent able to serve every customer takes them all. */
  lemma SoleServerTakesAll(ws: seq<Entity>, customers: seq<Entity>, a: Entity)
    requires SortedByScore(ws) && customers != [] && a in ws
    requires forall c :: c in customers ==> c.score <= a.score
    requires forall b :: b in ws && b != a ==>
               a.score < b.score || forall c :: c in customers ==> b.score < c.score
    ensures TopRankedId(ws, Tally(ws, customers)) == a.id
  {
    var k := SoleServerPosition(ws, customers, a);
    SoleServerFits(ws, customers, a, k);
    TallyOneFit(ws, customers, k);
    UniqueTopWins(ws, Tally(ws, customers), k);
  }

  /**
   * When one available agent `a` can serve every customer, and every other available
   * agent either outscores it or can serve no customer at all, `a` takes every
   * customer and its id is the result.
   */
  lemma SoleServerWins(agents: seq<Entity>, customers: seq<Entity>, away: seq<int>, a: Entity)
    requires Balance(agents, customers, away).Success?
    requires customers != []
    requires a in agents && a.id !in away
    requires forall c :: c in customers ==> c.score <= a.score
    requires forall b :: b in agents && b.id !in away && b != a ==>
               a.score < b.score || forall c :: c in customers ==> b.score < c.score
    ensures Balance(agents, customers, away) == Success(a.id)
  {
    var allowed := Allowed(agents, away);
    SortedMembers(allowed);
    SoleServerTakesAll(SortByScore(allowed), customers, a);
  }
}
