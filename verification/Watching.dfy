/** Confirmation reports on their way from the poller to the publisher. They travel through a bounded channel, so a
    report may be lost, and it may be handled long after the poll that produced it. */
module Watching {
  import opened Text
  import opened Store
  import opened PublishRuns
  import opened Publisher
  import opened Confirmation

  const CHANNEL: nat := 8

  /** The versions a poll sees. */
  function Seen(dump: Option<Json>): set<string> {
    if dump.Some? then Versions(Infos(dump.value, "")) else {}
  }

  /** Some poll saw versions that read as ir; when ir cannot be read as a list, it saw ir and nothing else. */
  ghost predicate WasSeen(polls: seq<set<string>>, ir: string) {
    exists k :: 0 <= k < |polls| && Observes(polls[k], ir) && (!Ambiguous(ir) ==> polls[k] == {ir})
  }

  lemma WasSeenGrows(polls: seq<set<string>>, ir: string, more: set<string>)
    requires WasSeen(polls, ir)
    ensures WasSeen(polls + [more], ir)
  {
    hide Observes, Ambiguous;
    var k :| 0 <= k < |polls| && Observes(polls[k], ir) && (!Ambiguous(ir) ==> polls[k] == {ir});
    assert (polls + [more])[k] == polls[k];
  }

  lemma LastIsSeen(polls: seq<set<string>>, ir: string)
    requires polls != [] && Observes(polls[|polls| - 1], ir) && (!Ambiguous(ir) ==> polls[|polls| - 1] == {ir})
    ensures WasSeen(polls, ir)
  {
  }

  /** A confirmation in the channel goes back to a poll. */
  ghost predicate Backed(polls: seq<set<string>>, e: ConfirmEvent) {
    e.confirmed ==> e.observed == e.expected && WasSeen(polls, e.expected)
  }

  class Watch {
    const publisher: PublisherObject
    const service: Service
    /** Reports sent and not yet handled. */
    var channel: seq<ConfirmEvent>
    /** What every poll saw, oldest first. */
    ghost var polls: seq<set<string>>

    constructor (publisher: PublisherObject, service: Service)
      requires publisher.Valid() && service.Valid()
      ensures Valid() && this.publisher == publisher && this.service == service && channel == [] && polls == []
    {
      this.publisher, this.service, channel, polls := publisher, service, [], [];
    }

    ghost predicate Valid()
      reads this, service, publisher, publisher.store, publisher.dir, publisher.dir.disk
    {
      && publisher.Valid() && service.Valid() && |channel| <= CHANNEL
      && forall i :: 0 <= i < |channel| ==> Backed(polls, channel[i])
    }

    method Expect(version: string, now: int, timeout: int)
      requires Valid()
      modifies service
      ensures Valid() && service.expected == version && service.expectAt == now
    {
      hide PublisherObject.Valid, Backed;
      service.ExpectVersion(version, now, timeout);
    }

    /** One poll. An answer is sent unless the channel is full, and then it is lost. */
    method Poll(dump: Option<Json>, now: int) returns (answer: Option<ConfirmEvent>)
      requires Valid()
      modifies this, service
      ensures Valid() && polls == old(polls) + [Seen(dump)]
      ensures channel
              == if answer.Some? && |old(channel)| < CHANNEL then old(channel) + [answer.value] else old(channel)
      ensures answer.Some? <==>
        old(service.expected) != ""
        && (Observes(Seen(dump), old(service.expected)) || now - old(service.expectAt) >= old(service.timeout))
      ensures answer.Some? ==>
        && answer.value.expected == old(service.expected) && service.expected == ""
        && (answer.value.confirmed <==> Observes(Seen(dump), old(service.expected)))
    {
      hide PublisherObject.Valid, Observes, WasSeen, Ambiguous, Infos, Versions;
      answer := service.Refresh(dump, now);
      ghost var seen := polls + [Seen(dump)];
      forall i | 0 <= i < |channel| && channel[i].confirmed ensures Backed(seen, channel[i]) {
        assert Backed(polls, channel[i]);
        WasSeenGrows(polls, channel[i].expected, Seen(dump));
      }
      polls := seen;
      if answer.Some? && |channel| < CHANNEL {
        if answer.value.confirmed {
          LastIsSeen(seen, answer.value.expected);
        }
        channel := channel + [answer.value];
      }
    }

    /** The oldest report reaches the publisher. A version becomes effective through it only when its IR was seen, alone
        unless its name reads as a list, by some poll; and a decisive report that meets no fault has its effect. */
    method Handle(activeFails: bool, getFails: set<nat>, transitionFails: bool)
      requires Valid()
      modifies this`channel, publisher`log, publisher.store
      ensures Valid() && polls == old(polls)
      ensures channel == if old(channel) == [] then [] else old(channel)[1..]
      ensures old(channel) == [] ==> publisher.store.db == old(publisher.store.db)
      ensures EffectiveOf(publisher.store.db) == EffectiveOf(old(publisher.store.db))
              || exists id: nat, n: nat :: Earned(old(publisher.store.db), id, n, polls)
                   && EffectiveOf(publisher.store.db) == {n}
      ensures old(channel) != [] && !activeFails && !transitionFails ==>
        forall id, n :: Heard(old(publisher.store.db), id, n, old(channel)[0]) && id !in getFails ==>
          && NoActive(publisher.store.db)
          && EffectiveOf(publisher.store.db)
             == if old(channel)[0].confirmed then {n} else EffectiveOf(old(publisher.store.db))
    {
      hide PublisherObject.Valid, EffectiveOf, WasSeen, NoActive, Heard, Answer, Inv, Answers, Earned, Settled, Backed,
        Service.Valid, IsRun;
      if channel == [] {
        return;
      }
      var e := channel[0];
      channel := channel[1..];
      ghost var was := publisher.Now();
      assert Inv(was) by { Consistent(publisher); }
      publisher.HandleConfirmEvent(e, activeFails, getFails, transitionFails);
      EarnedBy(was.db, e, publisher.store.db, polls);
      if !activeFails && !transitionFails {
        forall id, n | Heard(was.db, id, n, e) && id !in getFails
          ensures NoActive(publisher.store.db)
          ensures EffectiveOf(publisher.store.db) == if e.confirmed then {n} else EffectiveOf(was.db)
        {
          AnswerMeans(was, id, n, e);
        }
      }
    }
  }

  /** Run id awaits version n, and some poll saw the version's IR. */
  ghost predicate Earned(db: Database, id: nat, n: nat, polls: seq<set<string>>) {
    n in db.versions && AwaitsIr(db, id, n, db.versions[n].ir) && WasSeen(polls, db.versions[n].ir)
  }

  lemma Consistent(p: PublisherObject)
    requires p.Valid()
    ensures Inv(p.Now())
  {
  }

  lemma EarnedBy(was: Database, e: ConfirmEvent, now: Database, polls: seq<set<string>>)
    requires Answers(was, e, now) && Backed(polls, e)
    ensures EffectiveOf(now) == EffectiveOf(was)
            || exists id: nat, n: nat :: Earned(was, id, n, polls) && EffectiveOf(now) == {n}
  {
    hide EffectiveOf, WasSeen;
    if EffectiveOf(now) != EffectiveOf(was) {
      var id: nat, n: nat :| AwaitsIr(was, id, n, e.expected) && EffectiveOf(now) == {n};
      assert Earned(was, id, n, polls);
    }
  }
}
