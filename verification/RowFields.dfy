/** What a row of the key table shows besides its digest: what it was created with and what was changed since,
    whatever lookups, rehashes and rotations run in between. */
module RowFields {
  import opened Outcomes
  import opened KeyHashing
  import opened KeyEntries
  import opened PostgresKeys

  /** The last value a change of the client gave, if one did. */
  function EnabledAfterChanges(events: seq<Event>, id: string, was: bool): bool
    decreases |events|
  {
    if events == [] then was
    else
      var given := if events[0].Change? && events[0].id == id then events[0].upd.enabled else None;
      EnabledAfterChanges(events[1..], id, if given.Some? then given.value else was)
  }

  function RolesAfterChanges(events: seq<Event>, id: string, was: seq<string>): seq<string>
    decreases |events|
  {
    if events == [] then was
    else
      var given := if events[0].Change? && events[0].id == id then events[0].upd.roles else None;
      RolesAfterChanges(events[1..], id, if given.Some? then given.value else was)
  }

  function ExpiryAfterChanges(events: seq<Event>, id: string, was: Instant): Instant
    decreases |events|
  {
    if events == [] then was
    else
      var given := if events[0].Change? && events[0].id == id then events[0].upd.expiresAt else None;
      ExpiryAfterChanges(events[1..], id, if given.Some? then given.value else was)
  }

  /** One event changes of a row what a change of its client gives, and besides only the digest. */
  lemma StepShows(d: Deployment, ev: Event, id: string)
    requires id in d.rows && ev != Remove(id)
    ensures id in Step(d, ev).rows
    ensures var was, now := d.rows[id], Step(d, ev).rows[id];
            var upd := if ev.Change? && ev.id == id then ev.upd else KeyUpdate(None, None, None);
            && now.enabled == (if upd.enabled.Some? then upd.enabled.value else was.enabled)
            && now.roles == (if upd.roles.Some? then upd.roles.value else was.roles)
            && now.expiresAt == (if upd.expiresAt.Some? then upd.expiresAt.value else was.expiresAt)
            && (now.id, now.key, now.prefix, now.createdAt) == (was.id, was.key, was.prefix, was.createdAt)
            && (!ev.Rehash? ==> (now.hash, now.version) == (was.hash, was.version))
  {
    hide HashTaken, Probed, Candidates, NewEntry;
  }

  /** Through every run without its removal, a row shows the values its changes gave last, and otherwise those
      it had; only its digest may change. */
  lemma {:induction false} RowShowsLastChanges(d: Deployment, events: seq<Event>, id: string)
    requires id in d.rows && Remove(id) !in events
    ensures id in Run(d, events).rows
    ensures var was, now := d.rows[id], Run(d, events).rows[id];
            && now.enabled == EnabledAfterChanges(events, id, was.enabled)
            && now.roles == RolesAfterChanges(events, id, was.roles)
            && now.expiresAt == ExpiryAfterChanges(events, id, was.expiresAt)
            && (now.id, now.key, now.prefix, now.createdAt) == (was.id, was.key, was.prefix, was.createdAt)
    decreases |events|
  {
    hide Step;
    if events != [] {
      StepShows(d, events[0], id);
      RowShowsLastChanges(Step(d, events[0]), events[1..], id);
    }
  }

  lemma {:induction false} StaysDisabled(events: seq<Event>, id: string)
    requires forall k :: 0 <= k < |events| && events[k].Change? && events[k].id == id ==> events[k].upd.enabled != Some(true)
    ensures !EnabledAfterChanges(events, id, false)
    decreases |events|
  {
    if events != [] {
      StaysDisabled(events[1..], id);
    }
  }

  /** A row that a change has disabled stays disabled, and every token that resolves to it is refused as
      revoked, until a change enables it or it is removed. */
  lemma DisabledRowIsRevoked(d: Deployment, upd: KeyUpdate, events: seq<Event>, id: string, now: Instant)
    requires id in d.rows && Remove(id) !in events && upd.enabled == Some(false)
    requires forall k :: 0 <= k < |events| && events[k].Change? && events[k].id == id ==> events[k].upd.enabled != Some(true)
    ensures var after := Run(d, [Change(id, upd)] + events);
            id in after.rows && !after.rows[id].enabled && Classify(Some(after.rows[id]), now) == RejectRevoked
  {
    hide Step;
    var all := [Change(id, upd)] + events;
    assert all[0] == Change(id, upd) && all[1..] == events;
    StepShows(d, all[0], id);
    RowShowsLastChanges(Step(d, all[0]), events, id);
    StaysDisabled(events, id);
  }

  /** A new row is enabled, shows what was asked for, holds the digest of the active pepper, and of the key
      itself keeps eight characters at most. */
  lemma NewRowShows(d: Deployment, ev: Event)
    requires ev.Insert? && ev.id !in d.rows && !HashTaken(d.rows, ev.id, HashForStore(d.hasher, ev.raw).hash)
    ensures ev.id in Step(d, ev).rows
    ensures var e := Step(d, ev).rows[ev.id];
            && e.id == ev.id && e.enabled && e.roles == ev.roles
            && e.createdAt == ev.createdAt && e.expiresAt == ev.expiresAt
            && (d.hasher.active.None? ==> e.hash == Plain(ev.raw) && e.version == 0)
            && (d.hasher.active.Some? ==> e.hash == Keyed(d.hasher.active.value, ev.raw) && e.version == 1)
            && e.key == "" && e.prefix == (if |ev.raw| <= 8 then ev.raw else ev.raw[..8] + "...")
    ensures forall other :: other != ev.id ==>
              (other in Step(d, ev).rows <==> other in d.rows)
              && (other in d.rows ==> Step(d, ev).rows[other] == d.rows[other])
  {
    hide HashTaken;
  }
}
