/** The `update_user_municipalities` management command: after the
    municipality table has been reloaded, every user's municipality
    assignments are checked against the names of the current
    municipalities; assignments whose name is no longer current are
    removed and, depending on the strategy, replaced by a current
    municipality looked up by name. A dry run reports without writing. */
module UserMunicipalities {
  import opened Text

  datatype Municipality = Municipality(id: int, name: string)

  /** The `--strategy` choices. */
  datatype Strategy = NameMatch | ClearInvalid | Interactive

  /** The outcome of `current_municipalities.get(name=...)`. */
  datatype Lookup = Found(m: Municipality) | DoesNotExist | MultipleReturned

  /** What the command decides for one invalid municipality: no
      replacement, a replacement, or an exception that abandons the user. */
  datatype Pick = NoPick | Picked(m: Municipality) | Raises

  /** What the command does with one user. */
  datatype UserOutcome =
    | AllValid
    | Failed
    | Fixed(removed: set<Municipality>, added: set<Municipality>)

  /** The answer typed at the interactive prompt, after `.strip()`, for a
      user and one of their invalid municipalities. */
  type Answers = (int, Municipality) -> string

  /** The many-to-many table between users and municipalities. */
  class UserDirectory {
    var assignments: map<int, set<Municipality>>

    constructor (initial: map<int, set<Municipality>>)
      ensures assignments == initial
    {
      assignments := initial;
    }
  }

  /** `set(current_municipalities.values_list('name', flat=True))`. */
  function Names(current: seq<Municipality>): set<string> {
    set m | m in current :: m.name
  }

  /** The rows of `current` with the given name, in order. */
  function Matching(current: seq<Municipality>, name: string): (r: seq<Municipality>)
    ensures forall m :: m in r <==> m in current && m.name == name
    decreases |current|
  {
    if current == [] then []
    else (if current[0].name == name then [current[0]] else []) + Matching(current[1..], name)
  }

  /** QuerySet.get(name=...): exactly one match, none, or several. */
  function Get(current: seq<Municipality>, name: string): (r: Lookup)
    ensures r.DoesNotExist? <==> name !in Names(current)
    ensures r.Found? ==> r.m in current && r.m.name == name
  {
    var matches := Matching(current, name);
    if |matches| == 0 then
      assert forall m :: m in current ==> m.name != name by {
        forall m | m in current ensures m.name != name {
          assert m.name == name ==> m in matches;
        }
      }
      DoesNotExist
    else
      assert matches[0] in matches;
      if |matches| == 1 then Found(matches[0]) else MultipleReturned
  }

  function FromLookup(l: Lookup): Pick {
    match l
    case Found(m) => Picked(m)
    case DoesNotExist => NoPick
    case MultipleReturned => Raises
  }

  /** The replacement chosen for one invalid municipality `m` of user `uid`. */
  function PickFor(strategy: Strategy, current: seq<Municipality>, answers: Answers, uid: int, m: Municipality): Pick {
    match strategy
    case NameMatch => FromLookup(Get(current, m.name))
    case ClearInvalid => NoPick
    case Interactive =>
      var choice := answers(uid, m);
      if choice != "" && AsciiLower(choice) != "skip" then FromLookup(Get(current, choice)) else NoPick
  }

  /** The user's municipalities whose name is current. */
  function ValidOf(ms: set<Municipality>, names: set<string>): set<Municipality> {
    set m | m in ms && m.name in names
  }

  /** The user's municipalities whose name is no longer current. */
  function InvalidOf(ms: set<Municipality>, names: set<string>): set<Municipality> {
    set m | m in ms && m.name !in names
  }

  /** The replacements picked for `invalid` that are not already among `valid`. */
  function ToAdd(invalid: set<Municipality>, valid: set<Municipality>, strategy: Strategy,
                 current: seq<Municipality>, answers: Answers, uid: int): set<Municipality>
  {
    set m | m in invalid && PickFor(strategy, current, answers, uid, m).Picked?
              && PickFor(strategy, current, answers, uid, m).m !in valid
          :: PickFor(strategy, current, answers, uid, m).m
  }

  predicate AnyRaises(invalid: set<Municipality>, strategy: Strategy, current: seq<Municipality>, answers: Answers, uid: int) {
    exists m :: m in invalid && PickFor(strategy, current, answers, uid, m).Raises?
  }

  /** The decision for user `uid` holding `ms`. */
  function CheckUser(ms: set<Municipality>, current: seq<Municipality>, strategy: Strategy,
                     answers: Answers, uid: int): UserOutcome
  {
    var names := Names(current);
    var invalid := InvalidOf(ms, names);
    if invalid == {} then AllValid
    else if AnyRaises(invalid, strategy, current, answers, uid) then Failed
    else Fixed(invalid, ToAdd(invalid, ValidOf(ms, names), strategy, current, answers, uid))
  }

  /** The user's municipalities after the command. */
  function Applied(ms: set<Municipality>, outcome: UserOutcome, dryRun: bool): set<Municipality> {
    if outcome.Fixed? && !dryRun then ms - outcome.removed + outcome.added else ms
  }

  /** Every user's municipalities after the command. */
  function Reassigned(assignments: map<int, set<Municipality>>, current: seq<Municipality>,
                      strategy: Strategy, dryRun: bool, answers: Answers): map<int, set<Municipality>>
  {
    map u | u in assignments :: Applied(assignments[u], CheckUser(assignments[u], current, strategy, answers, u), dryRun)
  }

  /** The users the command looks at: those with at least one municipality. */
  function Scope(assignments: map<int, set<Municipality>>): set<int> {
    set u | u in assignments && assignments[u] != {}
  }

  /** The users counted in `users_with_issues`. */
  function IssueUsers(assignments: map<int, set<Municipality>>, current: seq<Municipality>,
                      strategy: Strategy, answers: Answers): set<int>
  {
    set u | u in assignments && CheckUser(assignments[u], current, strategy, answers, u).Fixed?
  }

  // ---------------------------------------------------------------------
  // The command.

  /** A non-empty set of municipalities has an element. */
  lemma NonEmptyHasMunicipality(s: set<Municipality>)
    requires s != {}
    ensures exists m :: m in s
  {
    if forall m :: m !in s {
      assert false;
    }
  }

  /** A non-empty set of user ids has an element. */
  lemma NonEmptyHasUser(s: set<int>)
    requires s != {}
    ensures exists u :: u in s
  {
    if forall u :: u !in s {
      assert false;
    }
  }

  /** The loop that sorts a user's municipalities into valid and invalid. */
  method SplitMunicipalities(ms: set<Municipality>, names: set<string>) returns (valid: set<Municipality>, invalid: set<Municipality>)
    ensures valid == ValidOf(ms, names) && invalid == InvalidOf(ms, names)
    ensures valid + invalid == ms && valid !! invalid
  {
    valid, invalid := {}, {};
    var pending := ms;
    while pending != {}
      invariant pending <= ms
      invariant valid == ValidOf(ms - pending, names) && invalid == InvalidOf(ms - pending, names)
      decreases |pending|
    {
      NonEmptyHasMunicipality(pending);
      var m :| m in pending;
      if m.name in names {
        valid := valid + {m};
      } else {
        invalid := invalid + {m};
      }
      pending := pending - {m};
    }
  }

  /** The loop over the invalid municipalities that collects replacements;
      `raised` when a lookup raised, which abandons the user. */
  method CollectReplacements(invalid: set<Municipality>, valid: set<Municipality>, strategy: Strategy,
                             current: seq<Municipality>, answers: Answers, uid: int)
    returns (raised: bool, toAdd: set<Municipality>)
    ensures raised <==> AnyRaises(invalid, strategy, current, answers, uid)
    ensures !raised ==> toAdd == ToAdd(invalid, valid, strategy, current, answers, uid)
  {
    toAdd := {};
    var pending := invalid;
    while pending != {}
      invariant pending <= invalid
      invariant !AnyRaises(invalid - pending, strategy, current, answers, uid)
      invariant toAdd == ToAdd(invalid - pending, valid, strategy, current, answers, uid)
      decreases |pending|
    {
      NonEmptyHasMunicipality(pending);
      var m :| m in pending;
      var pick := PickFor(strategy, current, answers, uid, m);
      if pick.Raises? {
        return true, toAdd;
      }
      if pick.Picked? && pick.m !in valid {
        toAdd := toAdd + {pick.m};
      }
      pending := pending - {m};
    }
    raised := false;
  }

  /** One pass of the user loop, proved against CheckUser. */
  method CheckOneUser(ms: set<Municipality>, current: seq<Municipality>, names: set<string>,
                      strategy: Strategy, answers: Answers, uid: int)
    returns (outcome: UserOutcome)
    requires names == Names(current)
    ensures outcome == CheckUser(ms, current, strategy, answers, uid)
  {
    var valid, invalid := SplitMunicipalities(ms, names);
    if invalid == {} {
      return AllValid;
    }
    var raised, toAdd := CollectReplacements(invalid, valid, strategy, current, answers, uid);
    if raised {
      return Failed;
    }
    outcome := Fixed(invalid, toAdd);
  }

  /** Process one user: decide, write unless dry run, and count. */
  method UpdateUser(db: UserDirectory, u: int, current: seq<Municipality>, names: set<string>,
                    strategy: Strategy, dryRun: bool, answers: Answers)
    returns (outcome: UserOutcome)
    requires u in db.assignments && names == Names(current)
    modifies db
    ensures outcome == CheckUser(old(db.assignments[u]), current, strategy, answers, u)
    ensures db.assignments == old(db.assignments)[u := Applied(old(db.assignments[u]), outcome, dryRun)]
  {
    outcome := CheckOneUser(db.assignments[u], current, names, strategy, answers, u);
    if outcome.Fixed? && !dryRun {
      db.assignments := db.assignments[u := db.assignments[u] - outcome.removed + outcome.added];
    }
  }

  /** The directory and the `users_with_issues` counter after the users in
      `order` have been processed one after the other. */
  datatype Progress = Progress(assignments: map<int, set<Municipality>>, issues: nat)

  ghost function Visited(start: map<int, set<Municipality>>, order: seq<int>, current: seq<Municipality>,
                         strategy: Strategy, dryRun: bool, answers: Answers): Progress
    decreases |order|
  {
    if order == [] then Progress(start, 0)
    else
      var p := Visited(start, order[..|order| - 1], current, strategy, dryRun, answers);
      var u := order[|order| - 1];
      if u !in p.assignments then p
      else
        var outcome := CheckUser(p.assignments[u], current, strategy, answers, u);
        Progress(p.assignments[u := Applied(p.assignments[u], outcome, dryRun)],
                 p.issues + if outcome.Fixed? then 1 else 0)
  }

  /** The directory after processing `done` in any order, each user once. */
  ghost function Partial(start: map<int, set<Municipality>>, done: set<int>, current: seq<Municipality>,
                         strategy: Strategy, dryRun: bool, answers: Answers): map<int, set<Municipality>>
  {
    map v | v in start :: if v in done then Applied(start[v], CheckUser(start[v], current, strategy, answers, v), dryRun) else start[v]
  }

  /** The users among `done` counted as having issues. */
  ghost function IssuesAmong(start: map<int, set<Municipality>>, done: set<int>, current: seq<Municipality>,
                             strategy: Strategy, answers: Answers): set<int>
  {
    set v | v in done && v in start && CheckUser(start[v], current, strategy, answers, v).Fixed?
  }

  predicate Distinct(order: seq<int>) {
    forall i, j :: 0 <= i < j < |order| ==> order[i] != order[j]
  }

  /** `order` lists every user of `s` exactly once, as a `.distinct()` query does. */
  predicate ListsEach(order: seq<int>, s: set<int>) {
    && Distinct(order)
    && (forall u :: u in order ==> u in s)
    && (forall u :: u in s ==> u in order)
  }

  lemma PartialSnoc(start: map<int, set<Municipality>>, done: set<int>, u: int, current: seq<Municipality>,
                    strategy: Strategy, dryRun: bool, answers: Answers)
    requires u in start && u !in done
    ensures Partial(start, done, current, strategy, dryRun, answers)[u := Applied(start[u], CheckUser(start[u], current, strategy, answers, u), dryRun)]
         == Partial(start, done + {u}, current, strategy, dryRun, answers)
  {
  }

  lemma IssuesSnoc(start: map<int, set<Municipality>>, done: set<int>, u: int, current: seq<Municipality>,
                   strategy: Strategy, answers: Answers)
    requires u in start && u !in done
    ensures |IssuesAmong(start, done + {u}, current, strategy, answers)|
         == |IssuesAmong(start, done, current, strategy, answers)|
            + if CheckUser(start[u], current, strategy, answers, u).Fixed? then 1 else 0
  {
    var before := IssuesAmong(start, done, current, strategy, answers);
    if CheckUser(start[u], current, strategy, answers, u).Fixed? {
      assert IssuesAmong(start, done + {u}, current, strategy, answers) == before + {u};
    } else {
      assert IssuesAmong(start, done + {u}, current, strategy, answers) == before;
    }
  }

  /** The users listed in `order`. */
  function Members(order: seq<int>): set<int> {
    set u | u in order
  }

  /** The users of a duplicate-free list: those before the last one, plus the last one. */
  lemma SnocSet(order: seq<int>)
    requires Distinct(order) && order != []
    ensures order[|order| - 1] !in Members(order[..|order| - 1])
    ensures Members(order) == Members(order[..|order| - 1]) + {order[|order| - 1]}
  {
    var front := order[..|order| - 1];
    var u := order[|order| - 1];
    forall k | 0 <= k < |front| ensures front[k] != u {
      assert front[k] == order[k];
    }
    assert order == front + [u];
  }

  /** Visiting distinct users one at a time is the same as deciding each
      of them on the directory as it was at the start. */
  lemma {:induction false} VisitedIsPartial(start: map<int, set<Municipality>>, order: seq<int>, current: seq<Municipality>,
                                            strategy: Strategy, dryRun: bool, answers: Answers)
    requires Distinct(order) && forall k :: 0 <= k < |order| ==> order[k] in start
    ensures Visited(start, order, current, strategy, dryRun, answers).assignments
         == Partial(start, Members(order), current, strategy, dryRun, answers)
    ensures Visited(start, order, current, strategy, dryRun, answers).issues
         == |IssuesAmong(start, Members(order), current, strategy, answers)|
    decreases |order|
  {
    if order == [] {
      assert Partial(start, {}, current, strategy, dryRun, answers) == start;
      assert IssuesAmong(start, {}, current, strategy, answers) == {};
    } else {
      var front := order[..|order| - 1];
      var u := order[|order| - 1];
      VisitedIsPartial(start, front, current, strategy, dryRun, answers);
      var done := Members(front);
      SnocSet(order);
      PartialSnoc(start, done, u, current, strategy, dryRun, answers);
      IssuesSnoc(start, done, u, current, strategy, answers);
    }
  }

  /** The users of the query, as a set. */
  lemma QuerySet(start: map<int, set<Municipality>>, order: seq<int>)
    requires ListsEach(order, Scope(start))
    ensures forall k :: 0 <= k < |order| ==> order[k] in start
    ensures Members(order) == Scope(start)
  {
    forall k | 0 <= k < |order| ensures order[k] in start {
      var u := order[k];
      assert u in order;
      assert u in Scope(start);
    }
    forall v ensures v in Members(order) <==> v in Scope(start) {
      assert v in Members(order) <==> v in order;
    }
  }

  /** Users outside the scope hold nothing, so deciding only the scope is enough. */
  lemma PartialScope(start: map<int, set<Municipality>>, current: seq<Municipality>,
                     strategy: Strategy, dryRun: bool, answers: Answers)
    ensures Partial(start, Scope(start), current, strategy, dryRun, answers) == Reassigned(start, current, strategy, dryRun, answers)
    ensures IssuesAmong(start, Scope(start), current, strategy, answers) == IssueUsers(start, current, strategy, answers)
  {
  }

  /** Processing every user of the query gives the whole command's result. */
  lemma VisitedAll(start: map<int, set<Municipality>>, order: seq<int>, current: seq<Municipality>,
                   strategy: Strategy, dryRun: bool, answers: Answers)
    requires ListsEach(order, Scope(start))
    ensures Visited(start, order, current, strategy, dryRun, answers).assignments
         == Reassigned(start, current, strategy, dryRun, answers)
    ensures Visited(start, order, current, strategy, dryRun, answers).issues
         == |IssueUsers(start, current, strategy, answers)|
  {
    QuerySet(start, order);
    VisitedIsPartial(start, order, current, strategy, dryRun, answers);
    PartialScope(start, current, strategy, dryRun, answers);
  }

  /** `handle`: the users of the `users_with_municipalities` query, in the
      order the query returns them, are processed inside one transaction. */
  method Handle(db: UserDirectory, users: seq<int>, current: seq<Municipality>, strategy: Strategy, dryRun: bool, answers: Answers)
    returns (totalUsers: nat, usersWithIssues: nat, updatedUsers: nat)
    requires ListsEach(users, Scope(db.assignments))
    modifies db
    ensures db.assignments == Reassigned(old(db.assignments), current, strategy, dryRun, answers)
    ensures totalUsers == |Scope(old(db.assignments))|
    ensures usersWithIssues == |IssueUsers(old(db.assignments), current, strategy, answers)|
    ensures updatedUsers == usersWithIssues
  {
    VisitedAll(db.assignments, users, current, strategy, dryRun, answers);
    DistinctCount(users, Scope(db.assignments));
    totalUsers := |users|;
    if totalUsers == 0 {
      return 0, 0, 0;
    }
    QuerySet(db.assignments, users);
    var names := Names(current);
    usersWithIssues, updatedUsers := UpdateUsers(db, users, current, names, strategy, dryRun, answers);
  }

  /** The `for user in users_with_municipalities` loop. */
  method UpdateUsers(db: UserDirectory, users: seq<int>, current: seq<Municipality>, names: set<string>,
                     strategy: Strategy, dryRun: bool, answers: Answers)
    returns (usersWithIssues: nat, updatedUsers: nat)
    requires names == Names(current) && forall k :: 0 <= k < |users| ==> users[k] in db.assignments
    modifies db
    ensures Progress(db.assignments, usersWithIssues) == Visited(old(db.assignments), users, current, strategy, dryRun, answers)
    ensures updatedUsers == usersWithIssues
  {
    ghost var start := db.assignments;
    usersWithIssues, updatedUsers := 0, 0;
    for i := 0 to |users|
      invariant db.assignments.Keys == start.Keys
      invariant Visited(start, users[..i], current, strategy, dryRun, answers) == Progress(db.assignments, usersWithIssues)
      invariant updatedUsers == usersWithIssues
    {
      assert users[..i + 1][..i] == users[..i];
      var outcome := UpdateUser(db, users[i], current, names, strategy, dryRun, answers);
      if outcome.Fixed? {
        updatedUsers := updatedUsers + 1;
        usersWithIssues := usersWithIssues + 1;
      }
    }
    assert users[..|users|] == users;
  }

  /** A duplicate-free listing of a set has the set's size. */
  lemma {:induction false} DistinctCount(order: seq<int>, s: set<int>)
    requires ListsEach(order, s)
    ensures |order| == |s|
    decreases |order|
  {
    if order != [] {
      var front := order[..|order| - 1];
      var u := order[|order| - 1];
      assert u !in front by {
        forall k | 0 <= k < |front| ensures front[k] != u {
          assert front[k] == order[k];
        }
      }
      forall v ensures v in front <==> v in s - {u} {
        if v in s - {u} {
          assert v in order;
          var k :| 0 <= k < |order| && order[k] == v;
          assert k < |front|;
          assert front[k] == v;
        }
      }
      DistinctCount(front, s - {u});
      assert u in order;
    } else {
      forall u ensures u !in s {
        assert u !in order;
      }
    }
  }

  // ---------------------------------------------------------------------
  // What the command guarantees.

  /** A user whose municipalities all carry a current name is left as is
      and is not counted. */
  lemma AllValidUserUnchanged(assignments: map<int, set<Municipality>>, current: seq<Municipality>,
                              strategy: Strategy, dryRun: bool, answers: Answers, u: int)
    requires u in assignments && forall m :: m in assignments[u] ==> m.name in Names(current)
    ensures Reassigned(assignments, current, strategy, dryRun, answers)[u] == assignments[u]
    ensures u !in IssueUsers(assignments, current, strategy, answers)
  {
    assert InvalidOf(assignments[u], Names(current)) == {};
  }

  /** A dry run writes nothing, and the users it reports ("Would update")
      include every user a real run would change. */
  lemma DryRunChangesNothing(assignments: map<int, set<Municipality>>, current: seq<Municipality>,
                             strategy: Strategy, answers: Answers)
    ensures Reassigned(assignments, current, strategy, true, answers) == assignments
    ensures forall u :: u in assignments && Reassigned(assignments, current, strategy, false, answers)[u] != assignments[u]
                        ==> u in IssueUsers(assignments, current, strategy, answers)
  {
  }

  /** Outside a dry run, a user with an invalid municipality whose lookups
      did not raise ends up with exactly their valid municipalities and the
      replacements, every one of them carrying a current name; a user whose
      lookup raised is left as is. */
  lemma FixedUserHoldsOnlyCurrent(assignments: map<int, set<Municipality>>, current: seq<Municipality>,
                                  strategy: Strategy, answers: Answers, u: int)
    requires u in assignments
    ensures var outcome := CheckUser(assignments[u], current, strategy, answers, u);
            var after := Reassigned(assignments, current, strategy, false, answers)[u];
            && (outcome.Fixed? ==> after == ValidOf(assignments[u], Names(current)) + outcome.added)
            && (outcome.Fixed? ==> forall m :: m in after ==> m.name in Names(current))
            && (outcome.Failed? ==> after == assignments[u])
  {
    var ms := assignments[u];
    var names := Names(current);
    var outcome := CheckUser(ms, current, strategy, answers, u);
    if outcome.Fixed? {
      AddedAreCurrent(InvalidOf(ms, names), ValidOf(ms, names), strategy, current, answers, u);
      assert outcome.added <= ValidOf(ms, names) + outcome.added;
      forall m | m in outcome.added ensures m !in outcome.removed {
        assert m.name in names;
      }
      assert ms - outcome.removed == ValidOf(ms, names);
    }
  }

  /** Every replacement is a current municipality that the user does not
      already hold among the valid ones. */
  lemma AddedAreCurrent(invalid: set<Municipality>, valid: set<Municipality>, strategy: Strategy,
                        current: seq<Municipality>, answers: Answers, uid: int)
    ensures forall m :: m in ToAdd(invalid, valid, strategy, current, answers, uid) ==>
      m in current && m.name in Names(current) && m !in valid
  {
    forall m | m in ToAdd(invalid, valid, strategy, current, answers, uid)
      ensures m in current && m.name in Names(current) && m !in valid
    {
      var i :| i in invalid && PickFor(strategy, current, answers, uid, i).Picked?
               && PickFor(strategy, current, answers, uid, i).m !in valid
               && PickFor(strategy, current, answers, uid, i).m == m;
    }
  }

  /** Under `name_match` a replacement is looked up by the invalid
      municipality's own name, which by definition is not current: no lookup
      finds anything and no lookup raises, so nothing is ever added. */
  lemma NameMatchAddsNothing(ms: set<Municipality>, current: seq<Municipality>, answers: Answers, uid: int)
    ensures var outcome := CheckUser(ms, current, NameMatch, answers, uid);
            outcome.AllValid? || outcome == Fixed(InvalidOf(ms, Names(current)), {})
  {
    var invalid := InvalidOf(ms, Names(current));
    forall m | m in invalid ensures PickFor(NameMatch, current, answers, uid, m) == NoPick {
      assert Get(current, m.name).DoesNotExist?;
    }
    assert !AnyRaises(invalid, NameMatch, current, answers, uid);
    assert ToAdd(invalid, ValidOf(ms, Names(current)), NameMatch, current, answers, uid) == {};
  }

  /** Hence `name_match` behaves exactly like `clear_invalid`. */
  lemma NameMatchIsClearInvalid(assignments: map<int, set<Municipality>>, current: seq<Municipality>,
                                dryRun: bool, answers: Answers)
    ensures Reassigned(assignments, current, NameMatch, dryRun, answers)
         == Reassigned(assignments, current, ClearInvalid, dryRun, answers)
    ensures IssueUsers(assignments, current, NameMatch, answers) == IssueUsers(assignments, current, ClearInvalid, answers)
  {
    forall u | u in assignments
      ensures CheckUser(assignments[u], current, NameMatch, answers, u)
           == CheckUser(assignments[u], current, ClearInvalid, answers, u)
    {
      NameMatchAddsNothing(assignments[u], current, answers, u);
      var invalid := InvalidOf(assignments[u], Names(current));
      assert ToAdd(invalid, ValidOf(assignments[u], Names(current)), ClearInvalid, current, answers, u) == {};
      assert !AnyRaises(invalid, ClearInvalid, current, answers, u);
    }
  }

  /** Every user counted in `users_with_issues` is one of the users checked. */
  lemma {:induction false} IssuesAtMostTotal(assignments: map<int, set<Municipality>>, current: seq<Municipality>,
                                             strategy: Strategy, answers: Answers)
    ensures IssueUsers(assignments, current, strategy, answers) <= Scope(assignments)
    ensures |IssueUsers(assignments, current, strategy, answers)| <= |Scope(assignments)|
  {
    var issues := IssueUsers(assignments, current, strategy, answers);
    forall u | u in issues ensures u in Scope(assignments) {
      var ms := assignments[u];
      assert InvalidOf(ms, Names(current)) != {};
      assert InvalidOf(ms, Names(current)) <= ms;
    }
    SubsetCard(issues, Scope(assignments));
  }

  lemma {:induction false} SubsetCard(a: set<int>, b: set<int>)
    requires a <= b
    ensures |a| <= |b|
    decreases |b|
  {
    if a != {} {
      NonEmptyHasUser(a);
      var x :| x in a;
      SubsetCard(a - {x}, b - {x});
    }
  }

  /** Every municipality assigned to a user is a row of the municipality
      table, and `current` is that whole table. When the directory only
      refers to rows of `current`, no name can be missing from the current
      names: the command finds no issue and writes nothing. */
  lemma ConsistentDirectoryUnchanged(assignments: map<int, set<Municipality>>, current: seq<Municipality>,
                                     strategy: Strategy, dryRun: bool, answers: Answers)
    requires forall u, m :: u in assignments && m in assignments[u] ==> m in current
    ensures Reassigned(assignments, current, strategy, dryRun, answers) == assignments
    ensures IssueUsers(assignments, current, strategy, answers) == {}
  {
    forall u | u in assignments
      ensures Reassigned(assignments, current, strategy, dryRun, answers)[u] == assignments[u]
      ensures u !in IssueUsers(assignments, current, strategy, answers)
    {
      AllValidUserUnchanged(assignments, current, strategy, dryRun, answers, u);
    }
  }

  /** Under `interactive`, every replacement is the current municipality
      named by the answer typed for one of the removed municipalities, and
      that answer was neither empty nor "skip". */
  lemma InteractiveAddsChosen(ms: set<Municipality>, current: seq<Municipality>, answers: Answers, uid: int)
    ensures var outcome := CheckUser(ms, current, Interactive, answers, uid);
            outcome.Fixed? ==>
              forall m :: m in outcome.added ==>
                m in current &&
                exists i :: i in outcome.removed && answers(uid, i) == m.name
                            && answers(uid, i) != "" && AsciiLower(answers(uid, i)) != "skip"
  {
    var names := Names(current);
    var invalid := InvalidOf(ms, names);
    var outcome := CheckUser(ms, current, Interactive, answers, uid);
    if outcome.Fixed? {
      forall m | m in outcome.added
        ensures m in current
        ensures exists i :: i in outcome.removed && answers(uid, i) == m.name
                            && answers(uid, i) != "" && AsciiLower(answers(uid, i)) != "skip"
      {
        var i :| i in invalid && PickFor(Interactive, current, answers, uid, i).Picked?
                 && PickFor(Interactive, current, answers, uid, i).m !in ValidOf(ms, names)
                 && PickFor(Interactive, current, answers, uid, i).m == m;
        assert Get(current, answers(uid, i)).Found?;
      }
    }
  }
}
