# Customer-success balancing, modelled in Dafny

`customerSuccessBalancing(customerSuccess, customers, customerSuccessAway)` takes a list
of customer-success agents and a list of customers, each an `{ id, score }` record, and
a list of agent ids that are away. It returns the id of the agent that serves the most
customers, or `0`. A call goes through these steps:

1. It throws when the away list is longer than half the roster. The away ids are
   counted whether or not any agent has them.
2. It checks the customers, then the agents, against fixed exclusive ceilings on the
   list length and on every score. This is `validateParameterLimits`.
3. It copies the agents that are not away, in input order, each with a zero counter.
4. It sorts the copies by ascending score. The sort is stable.
5. It gives each customer, in input order, to the first agent in sorted order whose
   score is at least the customer's. A customer nobody can serve is skipped.
6. It keeps a running maximum counter and the list of agents at that maximum.
7. It returns the id of the single agent at the maximum, or `0` for a tie or when
   nobody was assigned.

The modules, in dependency order:

- `Entities`: the `Entity` record, the error kinds (`InsufficientStaff`, and
  `QuantityLimitExceeded` and `ScoreLimitExceeded`, which carry the list and the limit),
  `Result`, `Option` and the four limits.
- `Validation`: the staffing check `TooManyAway`, written with real division as the
  source does. Also `ValidateParameterLimits`, a function returning its input or an error.
- `StableSort`: the sort of step 4 as a reference insertion sort, `SortByScore`. It is
  proved sorted, a permutation and stable. `StableSortIsUnique` proves that every stable
  sort by score gives exactly this list, so the engine's own algorithm does not matter.
- `Assignment`: the specification functions.
  - `Allowed` is the filter.
  - `FirstFit` is the agent a customer goes to.
  - `Tally` gives the counters after a run of customers.
  - `MaxCount`, `Leaders` and `TopRankedId` give the returned id.
- `Balancing`: the imperative routine. `CustomerSuccessBalancing` holds the filter loop,
  the sort and the call to `AssignAndRank`. `AssignAndRank` holds the customer loop over
  an `array<nat>` of counters. `ServeCustomer` is one pass of the inner loop with its
  `break`. `Balance` is the ghost specification that the method is proved to compute.
  The loop invariant `Tracks` says:
  - `maxActions` is the largest counter;
  - the tie list has no repeats;
  - the tie list holds exactly the positions at that positive maximum.
- `Properties`: statements over all inputs. They cover validation order, the result
  being an available agent, nobody servable, and the sole capable agent winning.
- `Scenarios`: the repository's thirteen example calls. Each is proved to give its
  expected result or error. The calls are described with `MapEntities`, `ArraySeq` and
  `BuildSizeEntities`, which mirror the test file's fixture helpers, or with free scores
  for Scenario 10.

The caller's lists are values here, so the function cannot mutate them. In the source
this is ensured by the spread copies of line 41.

The tie list holds positions in the sorted working list rather than object references.
A position names one copy exactly as the reference does, even when two agents share an
id or a score.

## Model

| member | source | states |
|---|---|---|
| Validation.TooManyAway | customer-success-balancing.js:18-22 | The real-division test `away.length > agents.length / 2` holds exactly when twice the away count exceeds the roster. Away ids are counted whether or not any agent has them. |
| Validation.ValidateParameterLimits | customer-success-balancing.js:70-87 | Success exactly when the list is shorter than its quantity ceiling and every score is below the score ceiling. On success it returns the list unchanged. The quantity error takes precedence over the score error. Each error carries its list and limit. |
| Properties.AwayCheckComesFirst | customer-success-balancing.js:18-22 | A call throws InsufficientStaff if and only if twice the away count exceeds the roster, whatever the other inputs. |
| Properties.ValidationOrder | customer-success-balancing.js:18-36 | After the staffing check, the errors come in this order: customers' quantity, customers' scores, agents' quantity, agents' scores. A call succeeds exactly when both lists are within their limits. |
| Assignment.Allowed | customer-success-balancing.js:38-43 | The working list holds exactly the agents whose id is not away. |
| Assignment.AllowedAppend | customer-success-balancing.js:38-43 | Filtering keeps input order: filtering a concatenation is the concatenation of the filtered parts. |
| StableSort.Insert | customer-success-balancing.js:44-46 | Inserting into a sorted list gives a sorted list holding the old elements plus the new one. |
| StableSort.SortByScore | customer-success-balancing.js:44-46 | The sorted working list is ordered by ascending score and is a permutation of the filtered list. |
| StableSort.InsertWithScore | customer-success-balancing.js:44-46 | Insertion appends the new element to its own score group and leaves every other group unchanged. |
| StableSort.SortByScoreIsStable | customer-success-balancing.js:44-46 | For every score, the agents with that score keep their filtered input order. |
| StableSort.SortedGroupsDetermine | customer-success-balancing.js:44-46 | Two sorted lists with the same per-score subsequences are equal. |
| StableSort.StableSortIsUnique | customer-success-balancing.js:44-46 | Any list sorted by score that keeps every score group in input order equals SortByScore, so a stable sort has exactly one possible result. |
| Assignment.SortedMembers | customer-success-balancing.js:44-46 | Sorting neither adds nor drops an agent. |
| Assignment.FirstFit | customer-success-balancing.js:51-52 | The chosen position is the first one whose score is at least the customer's. None means no agent is able to serve. |
| Assignment.FirstFitIsLowestCapable | customer-success-balancing.js:50-64 | On the sorted list, the first fit exists whenever some agent is able to serve, and it has the lowest score among those agents. |
| Assignment.ChosenAgent | customer-success-balancing.js:38-64 | The customer goes to an agent of least sufficient score, and among agents of that score to the first in filtered input order. With no capable agent, it goes to nobody. |
| Assignment.Tally | customer-success-balancing.js:50-64 | Defines the counters per sorted position after each customer in turn raises its first fit's counter. Its own contract states one counter per position; TallyStep, TallyTotal and TallyOneFit state the rest. |
| Assignment.TallyTotal | customer-success-balancing.js:50-64 | The counters add up to the number of customers some agent can serve. Every other customer is skipped. |
| Assignment.MaxCount | customer-success-balancing.js:55-57 | It is the largest counter and is attained by some counter. It is 0 when there are no counters. |
| Assignment.IncrementKeepsLeaders | customer-success-balancing.js:53-60 | After one increment, the maximum and the set of positions at a positive maximum change as lines 55-60 say. Exceeding the maximum resets the set to that position alone. Reaching it adds the position. |
| Assignment.UniqueTopWins | customer-success-balancing.js:67 | A single position with the largest positive counter gives that agent's id. |
| Assignment.TieGivesZero | customer-success-balancing.js:67 | Two positions sharing the largest positive counter give 0. |
| Assignment.NoAssignmentGivesZero | customer-success-balancing.js:67 | With every counter at 0 the result is 0. |
| Assignment.TopRankedId | customer-success-balancing.js:67 | Defines the result: the id of the single position at the positive maximum, else 0. It has no contract of its own; UniqueTopWins, TieGivesZero, NoAssignmentGivesZero and WinnerIsALeader state its cases. |
| Assignment.WinnerIsALeader | customer-success-balancing.js:67 | A non-zero result is the id of a position whose counter is the largest and positive. |
| Balancing.TallyStep | customer-success-balancing.js:50-64 | One more customer raises exactly its first fit's counter by one, or no counter when nobody fits. |
| Balancing.ZeroTracks | customer-success-balancing.js:41-49 | Fresh zero counters with maximum 0 and an empty tie list satisfy the bookkeeping invariant. |
| Balancing.TrackStep | customer-success-balancing.js:53-60 | The update of maxActions and cssTopRanked after an increment keeps the invariant. The invariant says maxActions is the largest counter and the tie list, without repeats, holds exactly the positions at a positive maximum. |
| Balancing.TrackedResult | customer-success-balancing.js:67 | Under the invariant, "the tie list has length 1, so return its id, else 0" is the same as the specified result. |
| Balancing.ServeCustomer | customer-success-balancing.js:51-63 | One pass of the inner loop raises exactly the first-fit counter, or none, and keeps the bookkeeping invariant. |
| Balancing.AssignAndRank | customer-success-balancing.js:48-67 | The customer loop returns the id of the unique top position of the tallied counters, or 0. |
| Balancing.Balance | customer-success-balancing.js:13-68 | What a whole call returns or throws: InsufficientStaff first, then the customers' and the agents' limit errors, else TopRankedId of the tally over the sorted working list. It has no contract of its own; CustomerSuccessBalancing is proved to compute it, and Properties states what it promises. |
| Balancing.CustomerSuccessBalancing | customer-success-balancing.js:13-68 | The routine returns or throws exactly what the specification Balance gives, for every input. |
| Properties.ResultIsAvailableAgent | customer-success-balancing.js:38-43 | A non-zero result is the id of an input agent that is not away. |
| Properties.TallyWhenNothingFits | customer-success-balancing.js:50-64 | When no customer fits, every counter stays at 0. |
| Properties.NothingServableGivesZero | customer-success-balancing.js:50-67 | When no available agent can serve any customer, the result is 0. |
| Properties.AllAwayGivesZero | customer-success-balancing.js:38-43 | With every agent away, the result of a valid call is 0. |
| Properties.TallyOneFit | customer-success-balancing.js:50-64 | When every customer has the same first fit, that position counts them all and the others stay at 0. |
| Properties.SoleServerTakesAll | customer-success-balancing.js:50-67 | On the sorted list, the agent able to serve everybody, whom every other agent either outscores or cannot serve at all, is the result. |
| Properties.SoleServerWins | customer-success-balancing.js:13-68 | The same holds for the full call: such an available agent's id is returned. |
| Scenarios.MapEntitiesMember | customer-success-balancing.js:117-122 | An entity built by mapEntities has an id from 1 to the length and the score at that position. |
| Scenarios.Scenario1 | customer-success-balancing.js:89-107 | Scenario 1 returns 1. |
| Scenarios.Scenario2 | customer-success-balancing.js:128-134 | Scenario 2 returns 0: agents 1, 2 and 3 tie on three customers each. |
| Scenarios.Scenario3 | customer-success-balancing.js:136-149 | Scenario 3 returns 998. |
| Scenarios.Scenario4 | customer-success-balancing.js:151-157 | Scenario 4 returns 0: nobody can serve. |
| Scenarios.Scenario5 | customer-success-balancing.js:159-165 | Scenario 5 returns 1. |
| Scenarios.Scenario6 | customer-success-balancing.js:167-173 | Scenario 6 returns 0: the capable agents are away. |
| Scenarios.Scenario7 | customer-success-balancing.js:175-181 | Scenario 7 returns 3. |
| Scenarios.Scenario8 | customer-success-balancing.js:183-188 | Scenario 8 returns 1. |
| Scenarios.Scenario9 | customer-success-balancing.js:203-215 | 1000 agents throw the agents' quantity error with limit 1000. |
| Scenarios.Scenario10 | customer-success-balancing.js:217-229 | A million customers, whatever their scores, throw the customers' quantity error with limit 1000000. |
| Scenarios.Scenario11 | customer-success-balancing.js:231-243 | An agent score of 10000 throws the agents' score error with limit 10000. |
| Scenarios.Scenario12 | customer-success-balancing.js:245-257 | A customer score of 100000 throws the customers' score error with limit 100000. |
| Scenarios.Scenario13 | customer-success-balancing.js:259-270 | Three away ids for five agents throw InsufficientStaff, although no agent has those ids. |

## Left out

- Error messages are the constructors of `Error`, carrying the list (`Customers`, `CustomersSuccess`) and the limit. The formatted text of lines 19-21 and 77-83 is not modelled.
- Thrown exceptions are `Failure` results, and a returned id is `Success(id)`.
- Scores and ids are unbounded integers. JavaScript numbers, non-integer scores and records missing a field are not modelled.
- `Array.prototype.sort` is an engine built-in. It is modelled by `SortByScore`, a function on the sequence value, applied to the filtered list. `StableSortIsUnique` shows that any stable sort gives the same list. The in-place update of `allowedCS` by the sort is not modelled, because nothing reads the unsorted list afterwards.
- The agent copies with their `actions` field are an `array<nat>` of counters indexed by position in the sorted list.
- The performance of the linear `includes` lookup and the wall-clock budget in Scenario 3 are not modelled.
- The Jest harness (`test`, `describe`, `expect`) is not modelled. Each example is a lemma about `Balance`.
- `generateSequentialArray` (lines 192-200) draws scores with `Math.random`. Scenario10 is stated for a million customers with arbitrary scores, which covers any values it draws.
- The fixture helpers `mapEntities`, `arraySeq` and `buildSizeEntities` are modelled as the predicate `MapEntities` and the functions `ArraySeq` and `BuildSizeEntities`. They have no contract of their own, and mapEntities is stated as a relation between the entities and their scores.
- The away list is a sequence, counted by its length with duplicates included, as Scenario 13 requires.
- Agent ids are not assumed unique and scores are not assumed non-negative; no contract needs either.
