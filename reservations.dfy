/** Reservation bookkeeping on the back end: the two Observation save signals
    (vespadb/observations/signals.py), the expiry cleanup
    (vespadb/observations/tasks/reservation_cleanup.py and its older copy in
    vespadb/observations/tasks.py) and the two recount audits
    (reservation_cleanup.py and vespadb/users/tasks.py).

    The database is a class holding the observations, by primary key, and the
    users' reservation_count, by user id. Only the three fields these rules
    read are kept; timestamps are seconds since the epoch in UTC. */
module Reservations {
  import opened Wrappers
  import opened Sets

  datatype Observation = Observation(
    reservedBy: Option<int>,
    reservedDatetime: Option<int>,
    eradicationDatetime: Option<int>)

  const SECONDS_PER_DAY := 86400

  // ------------------------------------------------------------ counting

  function Ind(b: bool): int { if b then 1 else 0 }

  /** Whether observation o counts towards user u: reserved by u and, when
      only active reservations count, not yet eradicated. */
  predicate Counts(o: Observation, u: int, onlyActive: bool) {
    o.reservedBy == Some(u) && (!onlyActive || o.eradicationDatetime.None?)
  }

  /** The observations that count towards u. */
  function Reserved(obs: map<int, Observation>, u: int, onlyActive: bool): set<int> {
    set id | id in obs && Counts(obs[id], u, onlyActive)
  }

  /** The stored counts equal the real ones for every user. */
  predicate Consistent(obs: map<int, Observation>, counts: map<int, int>, onlyActive: bool) {
    forall u :: u in counts ==> counts[u] == |Reserved(obs, u, onlyActive)|
  }

  /** Replacing one observation changes each user's real count by the
      difference of the two indicators. */
  lemma ReservedAfterUpdate(obs: map<int, Observation>, id: int, s: Observation, u: int, onlyActive: bool)
    requires id in obs
    ensures |Reserved(obs[id := s], u, onlyActive)|
      == |Reserved(obs, u, onlyActive)| - Ind(Counts(obs[id], u, onlyActive)) + Ind(Counts(s, u, onlyActive))
  {
    ReservedSetAfterUpdate(obs, id, s, u, onlyActive);
    SwapCardinality(Reserved(obs, u, onlyActive), id, Counts(s, u, onlyActive));
  }

  lemma ReservedSetAfterUpdate(obs: map<int, Observation>, id: int, s: Observation, u: int, onlyActive: bool)
    requires id in obs
    ensures Reserved(obs[id := s], u, onlyActive)
      == Reserved(obs, u, onlyActive) - {id} + (if Counts(s, u, onlyActive) then {id} else {})
    ensures id in Reserved(obs, u, onlyActive) <==> Counts(obs[id], u, onlyActive)
  {
  }

  /** Taking x out of a set and putting it back in or not. */
  lemma SwapCardinality(a: set<int>, x: int, keep: bool)
    ensures |a - {x} + (if keep then {x} else {})| == |a| - Ind(x in a) + Ind(keep)
  {
    if x in a {
      assert a == (a - {x}) + {x};
    } else {
      assert a - {x} == a;
    }
  }

  // ------------------------------------------------------------- signals

  /** Add d to the count of user u, when there is one. */
  function Bump(counts: map<int, int>, u: Option<int>, d: int): (r: map<int, int>)
    ensures r.Keys == counts.Keys
  {
    if u.Some? && u.value in counts then counts[u.value := counts[u.value] + d] else counts
  }

  /** handle_reservation_change (pre_save): for an instance that already has a
      primary key, a change of reserved_by takes one from the old user and
      gives one to the new user. `before` is the stored row, None for a new
      instance. */
  function PreSaveCounts(counts: map<int, int>, before: Option<Observation>, after: Observation): map<int, int> {
    match before
    case None => counts
    case Some(b) =>
      if b.reservedBy == after.reservedBy then counts
      else Bump(Bump(counts, b.reservedBy, -1), after.reservedBy, 1)
  }

  /** update_reserved_datetime (post_save), first part: a reservation without
      a reservation time is stamped with now. */
  function Stamp(o: Observation, now: int): (r: Observation)
    ensures r.reservedBy == o.reservedBy && r.eradicationDatetime == o.eradicationDatetime
    ensures o.reservedBy.Some? ==> r.reservedDatetime.Some?
    ensures o.reservedBy.None? || o.reservedDatetime.Some? ==> r == o
  {
    if o.reservedBy.Some? && o.reservedDatetime.None? then o.(reservedDatetime := Some(now)) else o
  }

  /** update_reserved_datetime, second part, as written: `reread` is the row
      read back after the save, `instance` the saved object. */
  function EradicationDecrementAsWritten(counts: map<int, int>, reread: Observation, instance: Observation,
                                         created: bool): map<int, int>
  {
    if !created && reread.eradicationDatetime.None? && instance.eradicationDatetime.Some? && instance.reservedBy.Some?
    then Bump(counts, instance.reservedBy, -1)
    else counts
  }

  /** The row read back after the save is the saved row, so the decrement as
      written never fires. */
  lemma AsWrittenDecrementNeverFires(counts: map<int, int>, saved: Observation, created: bool)
    ensures EradicationDecrementAsWritten(counts, saved, saved, created) == counts
  {
  }

  /** The decrement the handler documents: a save that sets the eradication
      time of an existing, reserved observation takes one from its user.
      `before` is the row before the save, None when the save created it. */
  function EradicationDecrement(counts: map<int, int>, before: Option<Observation>, instance: Observation): map<int, int> {
    if before.Some? && before.value.eradicationDatetime.None? && instance.eradicationDatetime.Some? && instance.reservedBy.Some?
    then Bump(counts, instance.reservedBy, -1)
    else counts
  }

  /** The two versions part on a first eradication of a reserved observation. */
  lemma EradicationDecrementDiffers(counts: map<int, int>, u: int, t: int)
    requires u in counts
    ensures var before := Observation(Some(u), Some(t), None);
      var saved := Observation(Some(u), Some(t), Some(t));
      EradicationDecrementAsWritten(counts, saved, saved, false) == counts
      && EradicationDecrement(counts, Some(before), saved)[u] == counts[u] - 1
  {
  }

  /** The counts after saving `after` over the stored row `before` with both
      signals, the eradication decrement as intended. */
  function SavedCounts(counts: map<int, int>, before: Observation, after: Observation, now: int): (r: map<int, int>)
    ensures r.Keys == counts.Keys
  {
    EradicationDecrement(PreSaveCounts(counts, Some(before), after), Some(before), Stamp(after, now))
  }

  /** The same with the decrement as written. */
  function SavedCountsAsWritten(counts: map<int, int>, before: Observation, after: Observation, now: int): (r: map<int, int>)
    ensures r.Keys == counts.Keys
  {
    EradicationDecrementAsWritten(PreSaveCounts(counts, Some(before), after), Stamp(after, now), Stamp(after, now), false)
  }

  /** Per user, the intended signals move the count by the change in the
      user's active reservations, provided an eradication is never undone and
      an eradicated observation keeps its user. */
  lemma SavedCountsDelta(counts: map<int, int>, before: Observation, after: Observation, now: int, u: int)
    requires u in counts
    requires after.reservedBy.Some? ==> after.reservedBy.value in counts
    requires before.reservedBy.Some? ==> before.reservedBy.value in counts
    requires before.eradicationDatetime.Some? ==> after.eradicationDatetime.Some? && after.reservedBy == before.reservedBy
    ensures SavedCounts(counts, before, after, now)[u]
      == counts[u] - Ind(Counts(before, u, true)) + Ind(Counts(Stamp(after, now), u, true))
  {
  }

  /** With the intended decrement, saving an existing observation keeps the
      stored counts equal to the active reservations, under the same
      proviso. */
  lemma SignalsKeepActiveCounts(obs: map<int, Observation>, counts: map<int, int>, id: int, o: Observation, now: int)
    requires Consistent(obs, counts, true) && id in obs
    requires o.reservedBy.Some? ==> o.reservedBy.value in counts
    requires obs[id].reservedBy.Some? ==> obs[id].reservedBy.value in counts
    requires obs[id].eradicationDatetime.Some? ==> o.eradicationDatetime.Some? && o.reservedBy == obs[id].reservedBy
    ensures Consistent(obs[id := Stamp(o, now)], SavedCounts(counts, obs[id], o, now), true)
  {
    var r := SavedCounts(counts, obs[id], o, now);
    forall u | u in r
      ensures r[u] == |Reserved(obs[id := Stamp(o, now)], u, true)|
    {
      SavedCountsDelta(counts, obs[id], o, now, u);
      ReservedAfterUpdate(obs, id, Stamp(o, now), u, true);
    }
  }

  /** With the decrement as written, saves keep the stored counts equal to
      all reservations, eradicated or not: the count users/tasks.py audits,
      not the one reservation_cleanup.py audits. */
  lemma AsWrittenSignalsKeepTotalCounts(obs: map<int, Observation>, counts: map<int, int>, id: int, o: Observation, now: int)
    requires Consistent(obs, counts, false) && id in obs
    requires o.reservedBy.Some? ==> o.reservedBy.value in counts
    requires obs[id].reservedBy.Some? ==> obs[id].reservedBy.value in counts
    ensures Consistent(obs[id := Stamp(o, now)], SavedCountsAsWritten(counts, obs[id], o, now), false)
  {
    var r := SavedCountsAsWritten(counts, obs[id], o, now);
    forall u | u in r
      ensures r[u] == |Reserved(obs[id := Stamp(o, now)], u, false)|
    {
      ReservedAfterUpdate(obs, id, Stamp(o, now), u, false);
    }
  }

  /** Creating a reserved observation changes no count, so the stored count
      of its user falls one short of the real one; the audits repair that. */
  lemma CreateLeavesCountShort(obs: map<int, Observation>, counts: map<int, int>, id: int, o: Observation,
                               now: int, onlyActive: bool)
    requires Consistent(obs, counts, onlyActive) && id !in obs
    requires o.reservedBy.Some? && o.reservedBy.value in counts && (!onlyActive || o.eradicationDatetime.None?)
    ensures |Reserved(obs[id := Stamp(o, now)], o.reservedBy.value, onlyActive)| == counts[o.reservedBy.value] + 1
  {
    var u := o.reservedBy.value;
    assert Reserved(obs[id := Stamp(o, now)], u, onlyActive) == Reserved(obs, u, onlyActive) + {id};
  }

  // ------------------------------------------------------------- cleanup

  /** Midnight (UTC) of the day holding t. */
  function Midnight(t: int): int { t - t % SECONDS_PER_DAY }

  /** The cleanup's cutoff: midnight of the day `days` days before now. */
  function Cutoff(now: int, days: int): (c: int)
    ensures c % SECONDS_PER_DAY == 0
    ensures now - (days + 1) * SECONDS_PER_DAY < c <= now - days * SECONDS_PER_DAY
  {
    Midnight(now - days * SECONDS_PER_DAY)
  }

  /** The cleanup's query: an expired reservation, a time without a user, or
      a user without a time. */
  predicate Selected(o: Observation, cutoff: int) {
    (o.reservedDatetime.Some? && o.reservedDatetime.value <= cutoff && o.reservedBy.Some?)
    || (o.reservedDatetime.Some? && o.reservedBy.None?)
    || (o.reservedDatetime.None? && o.reservedBy.Some?)
  }

  /** The repair of one selected observation. */
  function Repair(o: Observation, cutoff: int): Observation {
    if o.reservedDatetime.Some? && o.reservedBy.Some? then
      if o.reservedDatetime.value <= cutoff then o.(reservedBy := None, reservedDatetime := None) else o
    else if o.reservedDatetime.Some? && o.reservedBy.None? then o.(reservedDatetime := None)
    else if o.reservedDatetime.None? && o.reservedBy.Some? then o.(reservedBy := None)
    else o
  }

  /** Every selected observation loses both halves of its reservation, and
      nothing else. */
  lemma RepairClearsReservation(o: Observation, cutoff: int)
    requires Selected(o, cutoff)
    ensures Repair(o, cutoff) == o.(reservedBy := None, reservedDatetime := None)
  {
  }

  /** The observations once those of `ids` that the query selects are repaired. */
  function RepairAmong(obs: map<int, Observation>, ids: set<int>, cutoff: int): map<int, Observation> {
    map id | id in obs :: if id in ids && Selected(obs[id], cutoff) then Repair(obs[id], cutoff) else obs[id]
  }

  /** The observations after the cleanup. */
  function RepairAll(obs: map<int, Observation>, cutoff: int): map<int, Observation> {
    RepairAmong(obs, obs.Keys, cutoff)
  }

  /** The ids the cleanup's query selects. */
  function SelectedIds(obs: map<int, Observation>, cutoff: int): set<int> {
    set id | id in obs && Selected(obs[id], cutoff)
  }

  /** After the cleanup each observation has a user and a time, newer than
      the cutoff, or neither. */
  lemma CleanupLeavesPairsConsistent(obs: map<int, Observation>, cutoff: int, id: int)
    requires id in obs
    ensures var o := RepairAll(obs, cutoff)[id];
      (o.reservedBy.Some? <==> o.reservedDatetime.Some?)
      && (o.reservedDatetime.Some? ==> o.reservedDatetime.value > cutoff)
      && o.eradicationDatetime == obs[id].eradicationDatetime
  {
    if Selected(obs[id], cutoff) {
      RepairClearsReservation(obs[id], cutoff);
    }
  }

  /** The released reservations of user u among the observations `ids`. */
  function Released(obs: map<int, Observation>, ids: set<int>, cutoff: int, u: int): set<int> {
    set id | id in ids && id in obs && Selected(obs[id], cutoff) && obs[id].reservedBy == Some(u)
  }

  /** The counts once the observations `ids` are repaired: each release goes
      through the pre_save signal and takes one from the user. */
  function ReleasedCounts(obs: map<int, Observation>, counts: map<int, int>, ids: set<int>, cutoff: int): map<int, int> {
    map u | u in counts :: counts[u] - |Released(obs, ids, cutoff, u)|
  }

  /** The counts after the cleanup. */
  function CleanupCounts(obs: map<int, Observation>, counts: map<int, int>, cutoff: int): map<int, int> {
    ReleasedCounts(obs, counts, obs.Keys, cutoff)
  }

  /** Saving the repair of one more selected observation moves the state from
      the repairs of `done` to those of `done + {id}`. */
  lemma CleanupStepObservations(obs: map<int, Observation>, done: set<int>, id: int, cutoff: int, now: int)
    requires id in obs && id !in done && Selected(obs[id], cutoff)
    ensures RepairAmong(obs, done, cutoff)[id := Stamp(Repair(obs[id], cutoff), now)]
      == RepairAmong(obs, done + {id}, cutoff)
  {
    RepairClearsReservation(obs[id], cutoff);
  }

  lemma CleanupStepCounts(obs: map<int, Observation>, counts: map<int, int>, done: set<int>, id: int,
                          cutoff: int, now: int)
    requires id in obs && id !in done && Selected(obs[id], cutoff)
    ensures SavedCountsAsWritten(ReleasedCounts(obs, counts, done, cutoff), obs[id], Repair(obs[id], cutoff), now)
      == ReleasedCounts(obs, counts, done + {id}, cutoff)
  {
    RepairClearsReservation(obs[id], cutoff);
    var before := ReleasedCounts(obs, counts, done, cutoff);
    var after := SavedCountsAsWritten(before, obs[id], Repair(obs[id], cutoff), now);
    forall u | u in after
      ensures after[u] == ReleasedCounts(obs, counts, done + {id}, cutoff)[u]
    {
      ReleasedGrows(obs, done, id, cutoff, u);
    }
  }

  /** With every selected observation processed, the state is the cleanup's. */
  lemma CleanupDone(obs: map<int, Observation>, counts: map<int, int>, cutoff: int)
    ensures RepairAmong(obs, SelectedIds(obs, cutoff), cutoff) == RepairAll(obs, cutoff)
    ensures ReleasedCounts(obs, counts, SelectedIds(obs, cutoff), cutoff) == CleanupCounts(obs, counts, cutoff)
  {
    forall u | u in counts
      ensures Released(obs, SelectedIds(obs, cutoff), cutoff, u) == Released(obs, obs.Keys, cutoff, u)
    {
    }
  }

  // ------------------------------------------------------------- audits

  /** The users the audit's grouped query yields, the None group left out. */
  function Groups(obs: map<int, Observation>, onlyActive: bool): set<int> {
    set id | id in obs && obs[id].reservedBy.Some? && (!onlyActive || obs[id].eradicationDatetime.None?)
      :: obs[id].reservedBy.value
  }

  /** A user is in a group exactly when something counts towards them. */
  lemma GroupsAreUsersWithReservations(obs: map<int, Observation>, onlyActive: bool, u: int)
    ensures u in Groups(obs, onlyActive) <==> Reserved(obs, u, onlyActive) != {}
  {
    if u in Groups(obs, onlyActive) {
      var id :| id in obs && obs[id].reservedBy.Some? && (!onlyActive || obs[id].eradicationDatetime.None?)
        && obs[id].reservedBy.value == u;
      assert id in Reserved(obs, u, onlyActive);
    }
    if Reserved(obs, u, onlyActive) != {} {
      NonEmptyHasElement(Reserved(obs, u, onlyActive));
      var id :| id in Reserved(obs, u, onlyActive);
      assert obs[id].reservedBy.value in Groups(obs, onlyActive);
    }
  }

  /** The counts after an audit: users in a group get their real count,
      everybody else keeps the stored one. */
  function AuditedCounts(obs: map<int, Observation>, counts: map<int, int>, onlyActive: bool): map<int, int> {
    AuditedAmong(obs, counts, Groups(obs, onlyActive), onlyActive)
  }

  /** The counts once the users `users` are recounted. */
  function AuditedAmong(obs: map<int, Observation>, counts: map<int, int>, users: set<int>, onlyActive: bool): map<int, int> {
    map u | u in counts :: if u in users then |Reserved(obs, u, onlyActive)| else counts[u]
  }

  /** Recounting one more user. */
  lemma AuditStep(obs: map<int, Observation>, counts: map<int, int>, users: set<int>, u: int, onlyActive: bool)
    requires u in counts
    ensures AuditedAmong(obs, counts, users, onlyActive)[u := |Reserved(obs, u, onlyActive)|]
      == AuditedAmong(obs, counts, users + {u}, onlyActive)
  {
  }

  /** After an audit the counts are right exactly when every user outside the
      groups already held 0: a stale count of a user without reservations
      survives. */
  lemma AuditedConsistentIff(obs: map<int, Observation>, counts: map<int, int>, onlyActive: bool)
    ensures Consistent(obs, AuditedCounts(obs, counts, onlyActive), onlyActive)
      <==> forall u :: u in counts && u !in Groups(obs, onlyActive) ==> counts[u] == 0
  {
    forall u | u in counts
      ensures u !in Groups(obs, onlyActive) ==> |Reserved(obs, u, onlyActive)| == 0
    {
      GroupsAreUsersWithReservations(obs, onlyActive, u);
    }
  }

  // ------------------------------------------------------------ database

  class Database {
    var observations: map<int, Observation>
    var counts: map<int, int>

    /** Every reserving user exists. */
    predicate Valid()
      reads this
    {
      forall id :: id in observations && observations[id].reservedBy.Some? ==> observations[id].reservedBy.value in counts
    }

    constructor (users: set<int>)
      ensures Valid() && observations == map[] && counts == map u | u in users :: 0
    {
      observations := map[];
      counts := map u | u in users :: 0;
    }

    /** Saving a new observation: neither signal changes a count. */
    method Create(id: int, o: Observation, now: int)
      requires Valid() && id !in observations
      requires o.reservedBy.Some? ==> o.reservedBy.value in counts
      modifies this
      ensures Valid()
      ensures observations == old(observations)[id := Stamp(o, now)]
      ensures counts == old(counts)
    {
      counts := PreSaveCounts(counts, None, o);
      observations := observations[id := o];
      var saved := Stamp(o, now);
      observations := observations[id := saved];
      counts := EradicationDecrement(counts, None, saved);
    }

    /** Saving an existing observation as `o`, through both signals. */
    method Update(id: int, o: Observation, now: int)
      requires Valid() && id in observations
      requires o.reservedBy.Some? ==> o.reservedBy.value in counts
      modifies this
      ensures Valid()
      ensures observations == old(observations)[id := Stamp(o, now)]
      ensures counts == SavedCountsAsWritten(old(counts), old(observations)[id], o, now)
    {
      var before := observations[id];
      counts := PreSaveCounts(counts, Some(before), o);
      observations := observations[id := o];
      var saved := Stamp(o, now);
      // the stamping save runs the signals again; its reserved_by is unchanged
      // and its eradication time too, so they change nothing
      observations := observations[id := saved];
      // post_save compares the saved object with the row read back after
      // the save, which is that same row
      var reread := observations[id];
      counts := EradicationDecrementAsWritten(counts, reread, saved, false);
    }

    /** cleanup_expired_reservations: repair and save every selected
        observation, in the database's order. */
    method CleanupExpiredReservations(now: int, days: int)
      requires Valid()
      modifies this
      ensures Valid()
      ensures observations == RepairAll(old(observations), Cutoff(now, days))
      ensures counts == CleanupCounts(old(observations), old(counts), Cutoff(now, days))
    {
      var cutoff := Cutoff(now, days);
      var toUpdate := SelectedIds(observations, cutoff);
      ghost var obs0 := observations;
      ghost var counts0 := counts;
      ghost var done: set<int> := {};
      while toUpdate != {}
        invariant Valid()
        invariant toUpdate !! done && toUpdate + done == SelectedIds(obs0, cutoff)
        invariant observations == RepairAmong(obs0, done, cutoff)
        invariant counts == ReleasedCounts(obs0, counts0, done, cutoff)
        decreases toUpdate
      {
        NonEmptyHasElement(toUpdate);
        var id :| id in toUpdate;
        assert observations[id] == obs0[id];
        var repaired := Repair(observations[id], cutoff);
        RepairClearsReservation(obs0[id], cutoff);
        CleanupStepObservations(obs0, done, id, cutoff, now);
        CleanupStepCounts(obs0, counts0, done, id, cutoff, now);
        Update(id, repaired, now);
        toUpdate := toUpdate - {id};
        done := done + {id};
      }
      CleanupDone(obs0, counts0, cutoff);
    }

    /** The older copy in vespadb/observations/tasks.py: a fixed cutoff of two
        weeks. */
    method CleanupExpiredReservationsTwoWeeks(now: int)
      requires Valid()
      modifies this
      ensures Valid()
      ensures observations == RepairAll(old(observations), Cutoff(now, 14))
      ensures counts == CleanupCounts(old(observations), old(counts), Cutoff(now, 14))
    {
      CleanupExpiredReservations(now, 14);
    }

    /** audit_user_reservations: every group's user gets the group's size,
        written only when it differs; the users written are returned.
        onlyActive selects the version of reservation_cleanup.py, which
        counts only observations without an eradication time. */
    method AuditUserReservations(onlyActive: bool) returns (written: set<int>)
      requires Valid()
      modifies this
      ensures Valid() && observations == old(observations)
      ensures counts == AuditedCounts(observations, old(counts), onlyActive)
      ensures forall u :: u in written <==>
        u in Groups(observations, onlyActive) && u in old(counts) && old(counts)[u] != |Reserved(observations, u, onlyActive)|
    {
      var groups := Groups(observations, onlyActive);
      var todo := groups;
      written := {};
      while todo != {}
        invariant Valid() && observations == old(observations) && todo <= groups
        invariant counts == AuditedAmong(observations, old(counts), groups - todo, onlyActive)
        invariant forall u :: u in written <==>
          u in groups - todo && u in old(counts) && old(counts)[u] != |Reserved(observations, u, onlyActive)|
        decreases todo
      {
        NonEmptyHasElement(todo);
        var u :| u in todo;
        GroupUserExists(u, onlyActive);
        AuditStep(observations, old(counts), groups - todo, u, onlyActive);
        assert groups - todo + {u} == groups - (todo - {u});
        var actualCount := |Reserved(observations, u, onlyActive)|;
        if counts[u] != actualCount {
          counts := counts[u := actualCount];
          written := written + {u};
        } else {
          assert counts == counts[u := actualCount];
        }
        todo := todo - {u};
      }
    }

    /** Each group's user exists, since reserved_by is a foreign key. */
    lemma GroupUserExists(u: int, onlyActive: bool)
      requires Valid() && u in Groups(observations, onlyActive)
      ensures u in counts
    {
      var id :| id in observations && observations[id].reservedBy.Some?
        && (!onlyActive || observations[id].eradicationDatetime.None?) && observations[id].reservedBy.value == u;
    }

    /** free_expired_reservations_and_audit_reservation_count: the cleanup,
        then the audit of active reservations. */
    method FreeExpiredReservationsAndAudit(now: int, days: int)
      requires Valid()
      modifies this
      ensures Valid()
      ensures observations == RepairAll(old(observations), Cutoff(now, days))
      ensures counts == AuditedCounts(observations, CleanupCounts(old(observations), old(counts), Cutoff(now, days)), true)
    {
      CleanupExpiredReservations(now, days);
      var _ := AuditUserReservations(true);
    }
  }

  /** Adding one processed observation to the released set of u adds it
      exactly when it was u's. */
  lemma ReleasedGrows(obs: map<int, Observation>, done: set<int>, id: int, cutoff: int, u: int)
    requires id in obs && id !in done && Selected(obs[id], cutoff)
    ensures |Released(obs, done + {id}, cutoff, u)|
      == |Released(obs, done, cutoff, u)| + Ind(obs[id].reservedBy == Some(u))
  {
    if obs[id].reservedBy == Some(u) {
      assert Released(obs, done + {id}, cutoff, u) == Released(obs, done, cutoff, u) + {id};
    } else {
      assert Released(obs, done + {id}, cutoff, u) == Released(obs, done, cutoff, u);
    }
  }
}
