/** Lists of stored events and delivered records: routing, first copies, and the events of one subject. */
module EnvelopeLists {
  import opened Common
  import opened MatchEvents
  import opened EventStore
  import opened EventInvariants

  // ---------------------------------------------------------------- routing

  /** The events that the key hash `route` sends to one partition. */
  function Routed(events: seq<Envelope>, route: nat -> nat, p: nat): seq<Envelope> {
    if |events| == 0 then []
    else
      var front := Routed(events[..|events| - 1], route, p);
      var e := events[|events| - 1];
      if route(e.subject) == p then front + [e] else front
  }

  lemma RoutedAppend(events: seq<Envelope>, e: Envelope, route: nat -> nat, p: nat)
    ensures Routed(events + [e], route, p)
            == if route(e.subject) == p then Routed(events, route, p) + [e] else Routed(events, route, p)
  {
    assert (events + [e])[..|events|] == events;
  }

  lemma {:induction false} RoutedConcat(a: seq<Envelope>, b: seq<Envelope>, route: nat -> nat, p: nat)
    ensures Routed(a + b, route, p) == Routed(a, route, p) + Routed(b, route, p)
  {
    if |b| == 0 {
      assert a + b == a;
    } else {
      hide Routed;
      var n := |b| - 1;
      RoutedConcat(a, b[..n], route, p);
      RoutedAppend(a + b[..n], b[n], route, p);
      RoutedAppend(b[..n], b[n], route, p);
      assert b == b[..n] + [b[n]];
      AppendLast(a, b[..n], b[n]);
      AppendLast(Routed(a, route, p), Routed(b[..n], route, p), b[n]);
    }
  }

  lemma AppendLast(a: seq<Envelope>, b: seq<Envelope>, e: Envelope)
    ensures a + (b + [e]) == (a + b) + [e]
  {
  }

  function Envelopes(entries: seq<Entry>): seq<Envelope> {
    seq(|entries|, i requires 0 <= i < |entries| => entries[i].envelope)
  }

  lemma {:induction false} RoutedMembers(events: seq<Envelope>, route: nat -> nat, p: nat)
    ensures forall e :: e in Routed(events, route, p) <==> e in events && route(e.subject) == p
  {
    if |events| > 0 {
      var n := |events| - 1;
      RoutedMembers(events[..n], route, p);
      assert events == events[..n] + [events[n]];
      forall e ensures e in Routed(events, route, p) <==> e in events && route(e.subject) == p {
        assert e in events <==> e in events[..n] || e == events[n];
      }
    }
  }

  /** All records of a partition carry its number, so routing them again keeps all or none. */
  lemma {:induction false} RoutedAgain(events: seq<Envelope>, route: nat -> nat, p: nat, q: nat)
    requires forall e :: e in events ==> route(e.subject) == p
    ensures Routed(events, route, q) == if p == q then events else []
  {
    if |events| > 0 {
      var n := |events| - 1;
      RoutedAgain(events[..n], route, p, q);
      assert events == events[..n] + [events[n]];
    }
  }

  lemma HeadRouted(batch: seq<Envelope>, route: nat -> nat, p: nat)
    requires batch != []
    ensures Routed(batch, route, p)
            == if route(batch[0].subject) == p then [batch[0]] + Routed(batch[1..], route, p) else Routed(batch[1..], route, p)
  {
    assert batch == [batch[0]] + batch[1..];
    RoutedConcat([batch[0]], batch[1..], route, p);
    RoutedAppend([], batch[0], route, p);
    assert [] + [batch[0]] == [batch[0]];
  }

  // ---------------------------------------------------------------- timeline entries

  lemma EnvelopesAppend(entries: seq<Entry>, e: Entry)
    ensures Envelopes(entries + [e]) == Envelopes(entries) + [e.envelope]
  {
  }

  lemma EnvelopeIds(entries: seq<Entry>, e: Envelope)
    ensures e in Envelopes(entries) ==> e.id in IdsOf(entries)
    ensures e.id in IdsOf(entries) ==> exists x :: x in entries && x.envelope.id == e.id && x.envelope in Envelopes(entries)
  {
    if e in Envelopes(entries) {
      var i :| 0 <= i < |entries| && Envelopes(entries)[i] == e;
      assert entries[i] in entries;
    }
    if e.id in IdsOf(entries) {
      var x :| x in entries && x.envelope.id == e.id;
      var i :| 0 <= i < |entries| && entries[i] == x;
      assert Envelopes(entries)[i] == x.envelope;
    }
  }

  // ---------------------------------------------------------------- first copies

  ghost predicate DistinctIds(events: seq<Envelope>) {
    forall i, j :: 0 <= i < j < |events| ==> events[i].id != events[j].id
  }

  function IdsIn(events: seq<Envelope>): set<nat> {
    set e | e in events :: e.id
  }

  /** The records without those whose id came before. */
  function FirstCopies(records: seq<Envelope>): seq<Envelope> {
    if |records| == 0 then []
    else
      var front := FirstCopies(records[..|records| - 1]);
      var e := records[|records| - 1];
      if e.id in IdsIn(front) then front else front + [e]
  }

  lemma IdsInAppend(events: seq<Envelope>, e: Envelope)
    ensures IdsIn(events + [e]) == IdsIn(events) + {e.id}
  {
    assert forall x :: x in events + [e] <==> x in events || x == e;
  }

  lemma FirstCopiesAppend(records: seq<Envelope>, e: Envelope)
    ensures FirstCopies(records + [e])
            == if e.id in IdsIn(FirstCopies(records)) then FirstCopies(records) else FirstCopies(records) + [e]
  {
    assert (records + [e])[..|records|] == records;
  }

  /** Each id once, each record's id kept, nothing else. */
  lemma {:induction false} FirstCopiesAreExact(records: seq<Envelope>)
    ensures DistinctIds(FirstCopies(records)) && IdsIn(FirstCopies(records)) == IdsIn(records)
    ensures forall e :: e in FirstCopies(records) ==> e in records
  {
    if |records| > 0 {
      var n := |records| - 1;
      FirstCopiesAreExact(records[..n]);
      var front := FirstCopies(records[..n]);
      assert records == records[..n] + [records[n]];
      IdsInAppend(records[..n], records[n]);
      IdsInAppend(front, records[n]);
      assert forall i :: 0 <= i < |front| ==> front[i] in front;
    }
  }

  lemma {:induction false} FirstCopiesGrow(records: seq<Envelope>, more: seq<Envelope>)
    ensures FirstCopies(records) <= FirstCopies(records + more)
  {
    if |more| == 0 {
      assert records + more == records;
    } else {
      var n := |more| - 1;
      FirstCopiesGrow(records, more[..n]);
      FirstCopiesAppend(records + more[..n], more[n]);
      assert records + more == records + more[..n] + [more[n]];
    }
  }

  lemma FirstCopiesOfPrefix(a: seq<Envelope>, b: seq<Envelope>)
    requires a <= b
    ensures FirstCopies(a) <= FirstCopies(b)
  {
    assert b == a + b[|a|..];
    FirstCopiesGrow(a, b[|a|..]);
  }

  // ---------------------------------------------------------------- the events of one subject

  predicate Concerns(e: Envelope, subject: nat) {
    e.football.Some? && e.subject == subject
  }

  /** The stored football events of one subject. */
  function SubjectEvents(events: seq<Envelope>, subject: nat): seq<Envelope> {
    if |events| == 0 then []
    else
      var front := SubjectEvents(events[..|events| - 1], subject);
      var e := events[|events| - 1];
      if Concerns(e, subject) then front + [e] else front
  }

  lemma SubjectAppend(events: seq<Envelope>, e: Envelope, subject: nat)
    ensures SubjectEvents(events + [e], subject)
            == if Concerns(e, subject) then SubjectEvents(events, subject) + [e] else SubjectEvents(events, subject)
  {
    assert (events + [e])[..|events|] == events;
  }

  lemma {:induction false} SubjectConcat(a: seq<Envelope>, b: seq<Envelope>, subject: nat)
    ensures SubjectEvents(a + b, subject) == SubjectEvents(a, subject) + SubjectEvents(b, subject)
  {
    if |b| == 0 {
      assert a + b == a;
    } else {
      var n := |b| - 1;
      SubjectConcat(a, b[..n], subject);
      assert (a + b)[..|a| + n] == a + b[..n];
    }
  }

  lemma {:induction false} SubjectMembers(events: seq<Envelope>, subject: nat)
    ensures forall e :: e in SubjectEvents(events, subject) <==> e in events && Concerns(e, subject)
  {
    if |events| > 0 {
      var n := |events| - 1;
      SubjectMembers(events[..n], subject);
      assert events == events[..n] + [events[n]];
      forall e ensures e in SubjectEvents(events, subject) <==> e in events && Concerns(e, subject) {
        assert e in events <==> e in events[..n] || e == events[n];
      }
    }
  }

  lemma {:induction false} SubjectDistinct(events: seq<Envelope>, subject: nat)
    requires DistinctIds(events)
    ensures DistinctIds(SubjectEvents(events, subject))
  {
    if |events| > 0 {
      var n := |events| - 1;
      SubjectDistinct(events[..n], subject);
      SubjectMembers(events[..n], subject);
      var front := SubjectEvents(events[..n], subject);
      forall i | 0 <= i < |front| ensures front[i].id != events[n].id {
        assert front[i] in front;
        var j :| 0 <= j < n && events[..n][j] == front[i];
        assert events[j].id != events[n].id;
      }
    }
  }

  lemma SubjectPrefix(a: seq<Envelope>, b: seq<Envelope>, subject: nat)
    requires a <= b
    ensures SubjectEvents(a, subject) <= SubjectEvents(b, subject)
  {
    assert b == a + b[|a|..];
    SubjectConcat(a, b[|a|..], subject);
  }

  lemma {:induction false} SubjectRouted(events: seq<Envelope>, route: nat -> nat, subject: nat)
    ensures SubjectEvents(Routed(events, route, route(subject)), subject) == SubjectEvents(events, subject)
  {
    if |events| > 0 {
      var n := |events| - 1;
      SubjectRouted(events[..n], route, subject);
      SubjectAppend(Routed(events[..n], route, route(subject)), events[n], subject);
    }
  }

  /** Their payloads. */
  function FootballOf(events: seq<Envelope>, subject: nat): seq<MatchEvent> {
    if |events| == 0 then []
    else
      var front := FootballOf(events[..|events| - 1], subject);
      var e := events[|events| - 1];
      if e.football.Some? && e.subject == subject then front + [e.football.value] else front
  }

  lemma {:induction false} FootballConcat(a: seq<Envelope>, b: seq<Envelope>, subject: nat)
    ensures FootballOf(a + b, subject) == FootballOf(a, subject) + FootballOf(b, subject)
  {
    if |b| == 0 {
      assert a + b == a;
    } else {
      var n := |b| - 1;
      FootballConcat(a, b[..n], subject);
      assert (a + b)[..|a| + n] == a + b[..n];
    }
  }

  lemma {:induction false} FootballEntries(entries: seq<Entry>, subject: nat)
    ensures FootballOf(Envelopes(entries), subject) == MatchEventsIn(entries, subject)
  {
    if |entries| > 0 {
      var n := |entries| - 1;
      FootballEntries(entries[..n], subject);
      assert Envelopes(entries)[..n] == Envelopes(entries[..n]);
    }
  }

  lemma FootballPrefix(a: seq<Envelope>, b: seq<Envelope>, subject: nat)
    requires a <= b
    ensures FootballOf(a, subject) <= FootballOf(b, subject)
  {
    assert b == a + b[|a|..];
    FootballConcat(a, b[|a|..], subject);
  }

  lemma {:induction false} FootballOfSubject(events: seq<Envelope>, subject: nat)
    ensures FootballOf(SubjectEvents(events, subject), subject) == FootballOf(events, subject)
  {
    if |events| > 0 {
      var n := |events| - 1;
      FootballOfSubject(events[..n], subject);
      var front := SubjectEvents(events[..n], subject);
      assert (front + [events[n]])[..|front|] == front;
    }
  }
}
