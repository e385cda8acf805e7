/** Accepting events of a review cycle (scripts/reviewer_bot_core/review_state_machine.py, lines 25-218): each channel
    keeps its greatest event, and neither the order of delivery nor a redelivery matters. */
module ReviewChannels {
  import opened Strings
  import opened ReviewRecords

  datatype ChannelName = ReviewerComment | ReviewerReview | ContributorComment | ContributorRevision | ReviewDismissal

  datatype Channel = Channel(accepted: Option<Record>, seen: seq<string>)

  const EMPTY_CHANNEL: Channel := Channel(None, [])

  datatype Event = Event(channel: ChannelName, key: string, timestamp: string, actor: Option<string>,
                         head: Option<string>, precedence: int, dismissalOnly: bool)

  /** The part of a review entry that events change. */
  datatype Cycle = Cycle(channels: map<ChannelName, Channel>, handoff: Option<Handoff>)

  function ChannelAt(c: Cycle, name: ChannelName): Channel {
    if name in c.channels then c.channels[name] else EMPTY_CHANNEL
  }

  function RecordOf(e: Event): Record {
    Record(e.key, Some(e.timestamp), e.actor, e.head, e.precedence)
  }

  predicate FromContributor(name: ChannelName) { name.ContributorComment? || name.ContributorRevision? }

  /** The contributor's event is readable and strictly newer than the handoff. */
  predicate Outdates(timestamp: string, h: Handoff, parse: string -> Option<nat>) {
    && h.timestamp.Some? && parse(timestamp).Some? && parse(h.timestamp.value).Some?
    && parse(timestamp).value > parse(h.timestamp.value).value
  }

  predicate Seen(c: Cycle, e: Event) { e.key in ChannelAt(c, e.channel).seen }

  /** The cycle after one event. */
  function Accept(c: Cycle, e: Event, parse: string -> Option<nat>): Cycle {
    var channel := ChannelAt(c, e.channel);
    if e.key in channel.seen then c.(channels := c.channels[e.channel := channel])
    else
      var accepted :=
        if e.dismissalOnly then
          if channel.accepted.Some? then channel.accepted else Some(Record(e.key, Some(e.timestamp), None, None, 0))
        else if CompareRecords(Some(RecordOf(e)), channel.accepted, parse) >= 0 then Some(RecordOf(e))
        else channel.accepted;
      var cleared := !e.dismissalOnly && FromContributor(e.channel) && c.handoff.Some? &&
        Outdates(e.timestamp, c.handoff.value, parse);
      Cycle(c.channels[e.channel := Channel(accepted, channel.seen + [e.key])], if cleared then None else c.handoff)
  }

  /** The timestamp is readable, and later than the other if that is readable too. */
  predicate IsLater(timestamp: string, other: Option<string>, parse: string -> Option<nat>) {
    && parse(timestamp).Some?
    && (other.None? || parse(other.value).None? || parse(timestamp).value > parse(other.value).value)
  }

  // ----- The review entry -----

  /** What the decisions about a review read of its entry. */
  datatype Entry = Entry(reviewer: Option<string>, activeCycleStartedAt: Option<string>, cycleStartedAt: Option<string>,
                         assignedAt: Option<string>, completed: bool, completedAt: Option<string>, cycle: Cycle)

  class ReviewData {
    var channels: map<ChannelName, Channel>
    var handoff: Option<Handoff>
    var reviewer: Option<string>
    var activeCycleStartedAt: Option<string>
    var cycleStartedAt: Option<string>
    var assignedAt: Option<string>
    var lastActivity: Option<string>
    var transitionWarned: bool
    var completed: bool
    var completedAt: Option<string>
    const parse: string -> Option<nat>

    constructor (parse: string -> Option<nat>)
      ensures this.parse == parse
      ensures Contents() == Entry(None, None, None, None, false, None, Cycle(map[], None))
    {
      this.parse := parse;
      channels, handoff, reviewer := map[], None, None;
      activeCycleStartedAt, cycleStartedAt, assignedAt := None, None, None;
      lastActivity, transitionWarned, completed, completedAt := None, false, false, None;
    }

    ghost function Contents(): Entry
      reads this
    {
      Entry(reviewer, activeCycleStartedAt, cycleStartedAt, assignedAt, completed, completedAt,
            Cycle(channels, handoff))
    }

    /** `_ensure_channel_map`. */
    method EnsureChannel(name: ChannelName) returns (channel: Channel)
      modifies `channels
      ensures channel == ChannelAt(old(Contents()).cycle, name) && channels == old(channels)[name := channel]
    {
      if name !in channels { channels := channels[name := EMPTY_CHANNEL]; }
      channel := channels[name];
    }

    /** `_clear_handoff_after_newer_contributor_event`. */
    method ClearHandoff(timestamp: string) returns (cleared: bool)
      modifies `handoff
      ensures cleared <==> old(handoff).Some? && Outdates(timestamp, old(handoff).value, parse)
      ensures handoff == if cleared then None else old(handoff)
    {
      if handoff.None? { return false; }
      var contributorTime := parse(timestamp);
      var handoffTime := if handoff.value.timestamp.Some? then parse(handoff.value.timestamp.value) else None;
      if contributorTime.None? || handoffTime.None? || contributorTime.value <= handoffTime.value { return false; }
      handoff := None;
      return true;
    }

    /** `accept_channel_event`. */
    method AcceptChannelEvent(e: Event) returns (accepted: bool)
      modifies `channels, `handoff
      ensures accepted <==> !Seen(old(Contents()).cycle, e)
      ensures Contents() == old(Contents()).(cycle := Accept(old(Contents()).cycle, e, parse))
    {
      var channel := EnsureChannel(e.channel);
      if e.key in channel.seen { return false; }
      channel := channel.(seen := channel.seen + [e.key]);
      if e.dismissalOnly {
        if channel.accepted.None? {
          channel := channel.(accepted := Some(Record(e.key, Some(e.timestamp), None, None, 0)));
        }
        channels := channels[e.channel := channel];
        return true;
      }
      var candidate := RecordOf(e);
      if CompareRecords(Some(candidate), channel.accepted, parse) >= 0 {
        channel := channel.(accepted := Some(candidate));
      }
      channels := channels[e.channel := channel];
      if FromContributor(e.channel) {
        var cleared := ClearHandoff(e.timestamp);
      }
      return true;
    }

    /** A later activity moves the record on and ends a transition in progress. */
    method RecordActivity(timestamp: string) returns (moved: bool)
      modifies `lastActivity, `transitionWarned
      ensures moved <==> IsLater(timestamp, old(lastActivity), parse)
      ensures lastActivity == (if moved then Some(timestamp) else old(lastActivity))
      ensures transitionWarned == (old(transitionWarned) && !moved)
    {
      var current := if lastActivity.Some? then parse(lastActivity.value) else None;
      var candidate := parse(timestamp);
      if candidate.None? { return false; }
      if current.None? || candidate.value > current.value {
        lastActivity := Some(timestamp);
        transitionWarned := false;
        return true;
      }
      return false;
    }

    /** `set_current_reviewer`: a new reviewer starts a new cycle, of which nothing was seen yet. */
    method SetCurrentReviewer(login: string, now: string)
      modifies this
      ensures var e := Contents();
              && e == Entry(Some(login), Some(now), Some(now), Some(now), false, None, e.cycle)
              && e.cycle.handoff == None && forall name :: ChannelAt(e.cycle, name) == EMPTY_CHANNEL
      ensures lastActivity == if IsLater(now, old(lastActivity), parse) then Some(now) else old(lastActivity)
      ensures transitionWarned == (old(transitionWarned) && !IsLater(now, old(lastActivity), parse))
    {
      reviewer, activeCycleStartedAt, cycleStartedAt, assignedAt := Some(login), Some(now), Some(now), Some(now);
      var moved := RecordActivity(now);
      completed, completedAt := false, None;
      channels := map[ReviewerComment := EMPTY_CHANNEL, ReviewerReview := EMPTY_CHANNEL,
                      ContributorComment := EMPTY_CHANNEL, ContributorRevision := EMPTY_CHANNEL,
                      ReviewDismissal := EMPTY_CHANNEL];
      handoff := None;
    }

    /** Delivering events one after the other. */
    method Deliver(events: seq<Event>)
      modifies `channels, `handoff
      ensures Contents() == old(Contents()).(cycle := After(old(Contents()).cycle, events, parse))
    {
      for i := 0 to |events|
        invariant Contents() == old(Contents()).(cycle := After(old(Contents()).cycle, events[..i], parse))
      {
        var accepted := AcceptChannelEvent(events[i]);
        assert events[..i + 1][..i] == events[..i];
      }
      assert events[..|events|] == events;
    }
  }

  /** The cycle after a sequence of events. */
  function After(c: Cycle, events: seq<Event>, parse: string -> Option<nat>): Cycle {
    if events == [] then c
    else Accept(After(c, events[..|events| - 1], parse), events[|events| - 1], parse)
  }

  /** Of dismissals alone a channel keeps the first, and no dismissal outdates a handoff. */
  lemma DismissalsKeepFirst(c: Cycle, e: Event, f: Event, parse: string -> Option<nat>)
    requires e.dismissalOnly && f.dismissalOnly && e.channel == f.channel && e.key != f.key
    requires !Seen(c, e) && !Seen(c, f) && ChannelAt(c, e.channel).accepted.None?
    ensures var d := Accept(Accept(c, e, parse), f, parse);
            && ChannelAt(d, e.channel).accepted == Some(Record(e.key, Some(e.timestamp), None, None, 0))
            && ChannelAt(d, e.channel).seen == ChannelAt(c, e.channel).seen + [e.key] + [f.key] &&
               d.handoff == c.handoff
  {
    hide CompareRecords;
    hide Outdates;
    var d := Accept(c, e, parse);
    assert ChannelAt(d, e.channel).seen == ChannelAt(c, e.channel).seen + [e.key];
    assert !Seen(d, f);
  }

  /** A stored command is outdated by comments and revisions of the contributor and by nothing else, and only if both
      times can be read and that of the event is strictly later. */
  lemma WhatClearsHandoff(c: Cycle, e: Event, parse: string -> Option<nat>)
    requires c.handoff.Some? && !Seen(c, e)
    ensures Accept(c, e, parse).handoff.None? <==>
      && !e.dismissalOnly && e.channel in {ContributorComment, ContributorRevision}
      && c.handoff.value.timestamp.Some?
      && var s, t := parse(e.timestamp), parse(c.handoff.value.timestamp.value);
         s.Some? && t.Some? && s.value > t.value
    ensures Accept(c, e, parse).handoff in {None, c.handoff}
  {
    hide CompareRecords;
  }

  // ----- What a cycle has become, whatever the order -----

  /** Events of a channel are told apart by their keys, and none is a mere dismissal. */
  ghost predicate Distinct(events: seq<Event>) {
    && (forall e :: e in events ==> !e.dismissalOnly)
    && (forall e, f :: e in events && f in events && e.channel == f.channel && e.key == f.key ==> e == f)
  }

  /** The event is news to the cycle. */
  predicate IsNews(c: Cycle, events: seq<Event>, name: ChannelName, e: Event) {
    e in events && e.channel == name && e.key !in ChannelAt(c, name).seen
  }

  /** `r` is the greatest of the record that was there and the news: among equals the news counts. */
  ghost predicate Greatest(c: Cycle, events: seq<Event>, name: ChannelName, r: Option<Record>,
                           parse: string -> Option<nat>) {
    var was := ChannelAt(c, name).accepted;
    && (forall f :: IsNews(c, events, name, f) ==> r.Some? && !Before(r.value, RecordOf(f), parse))
    && (was.Some? ==> r.Some? && !Before(r.value, was.value, parse))
    && (|| (exists e :: IsNews(c, events, name, e) && r == Some(RecordOf(e)))
        || (r == was && forall f :: IsNews(c, events, name, f) ==> was.Some? && Before(RecordOf(f), was.value, parse)))
  }

  /** The handoff survives exactly when no news of the contributor outdates it. */
  ghost predicate Survives(c: Cycle, events: seq<Event>, parse: string -> Option<nat>) {
    c.handoff.Some? &&
    forall e :: e in events && FromContributor(e.channel) && !Seen(c, e) ==>
      !Outdates(e.timestamp, c.handoff.value, parse)
  }

  /** The channel has seen what it had seen before, and the news. */
  ghost predicate HasSeen(c: Cycle, events: seq<Event>, name: ChannelName, seen: seq<string>) {
    forall k :: k in seen <==>
      k in ChannelAt(c, name).seen || exists e :: e in events && e.channel == name && e.key == k
  }

  lemma {:induction false} AfterMeaning(c: Cycle, events: seq<Event>, parse: string -> Option<nat>)
    requires Distinct(events)
    ensures var d := After(c, events, parse);
            && (forall name :: Greatest(c, events, name, ChannelAt(d, name).accepted, parse))
            && (forall name :: HasSeen(c, events, name, ChannelAt(d, name).seen))
            && d.handoff == if Survives(c, events, parse) then c.handoff else None
    decreases |events|
  {
    hide Before;
    hide Outdates;
    if events == [] {
      forall name ensures Greatest(c, events, name, ChannelAt(c, name).accepted, parse) {
        if ChannelAt(c, name).accepted.Some? {
          BeforeTotal(ChannelAt(c, name).accepted.value, ChannelAt(c, name).accepted.value, parse);
        }
      }
    } else {
      var front, e := events[..|events| - 1], events[|events| - 1];
      assert events == front + [e];
      assert forall f :: f in events <==> f in front || f == e;
      assert Distinct(front);
      AfterMeaning(c, front, parse);
      var d := After(c, front, parse);
      SeenStep(c, front, e, d, parse);
      GreatestStep(c, front, e, d, parse);
      HandoffStep(c, front, e, d, parse);
    }
  }

  lemma SeenStep(c: Cycle, front: seq<Event>, e: Event, d: Cycle, parse: string -> Option<nat>)
    requires forall name :: HasSeen(c, front, name, ChannelAt(d, name).seen)
    ensures forall name :: HasSeen(c, front + [e], name, ChannelAt(Accept(d, e, parse), name).seen)
  {
    hide CompareRecords;
    hide Outdates;
    var events := front + [e];
    assert forall f :: f in events <==> f in front || f == e;
    forall name ensures HasSeen(c, events, name, ChannelAt(Accept(d, e, parse), name).seen) {
      assert HasSeen(c, front, name, ChannelAt(d, name).seen);
      assert HasSeen(c, front, e.channel, ChannelAt(d, e.channel).seen);
    }
  }

  /** What the last event adds: nothing when its key was seen, as it then is one that came before. */
  lemma GreatestStep(c: Cycle, front: seq<Event>, e: Event, d: Cycle, parse: string -> Option<nat>)
    requires Distinct(front + [e])
    requires forall name :: Greatest(c, front, name, ChannelAt(d, name).accepted, parse)
    requires forall name :: HasSeen(c, front, name, ChannelAt(d, name).seen)
    ensures forall name :: Greatest(c, front + [e], name, ChannelAt(Accept(d, e, parse), name).accepted, parse)
  {
    hide Before;
    hide Outdates;
    var events := front + [e];
    assert forall f :: f in events <==> f in front || f == e;
    forall name ensures Greatest(c, events, name, ChannelAt(Accept(d, e, parse), name).accepted, parse) {
      assert Greatest(c, front, name, ChannelAt(d, name).accepted, parse);
      assert HasSeen(c, front, name, ChannelAt(d, name).seen);
      if name != e.channel || e.key in ChannelAt(d, name).seen {
        SameNews(c, front, e, name, d);
      } else {
        NewsStep(c, front, e, d, parse);
      }
    }
  }

  lemma SameNews(c: Cycle, front: seq<Event>, e: Event, name: ChannelName, d: Cycle)
    requires Distinct(front + [e]) && HasSeen(c, front, name, ChannelAt(d, name).seen)
    requires name != e.channel || e.key in ChannelAt(d, name).seen
    ensures forall f :: IsNews(c, front + [e], name, f) <==> IsNews(c, front, name, f)
  {
    var events := front + [e];
    assert forall f :: f in events <==> f in front || f == e;
    if name == e.channel && e.key !in ChannelAt(c, name).seen {
      var f :| f in front && f.channel == name && f.key == e.key;
      assert f in events && e in events && f == e;
    }
  }

  lemma NewsStep(c: Cycle, front: seq<Event>, e: Event, d: Cycle, parse: string -> Option<nat>)
    requires Distinct(front + [e]) && e.key !in ChannelAt(d, e.channel).seen
    requires Greatest(c, front, e.channel, ChannelAt(d, e.channel).accepted, parse)
    requires HasSeen(c, front, e.channel, ChannelAt(d, e.channel).seen)
    ensures Greatest(c, front + [e], e.channel, ChannelAt(Accept(d, e, parse), e.channel).accepted, parse)
  {
    hide Before;
    hide Outdates;
    var events, name, candidate := front + [e], e.channel, RecordOf(e);
    assert forall f :: f in events <==> f in front || f == e;
    assert e in events && !e.dismissalOnly;
    var was, current := ChannelAt(c, name).accepted, ChannelAt(d, name).accepted;
    assert IsNews(c, events, name, e);
    assert forall f :: IsNews(c, events, name, f) <==> IsNews(c, front, name, f) || f == e;
    BeforeTotal(candidate, candidate, parse);
    if current.Some? {
      BeforeTotal(candidate, current.value, parse);
      if !Before(candidate, current.value, parse) {
        forall f | IsNews(c, front, name, f) ensures !Before(candidate, RecordOf(f), parse) {
          NotBeforeTransitive(candidate, current.value, RecordOf(f), parse);
        }
        if was.Some? { NotBeforeTransitive(candidate, current.value, was.value, parse); }
      }
    }
  }

  lemma HandoffStep(c: Cycle, front: seq<Event>, e: Event, d: Cycle, parse: string -> Option<nat>)
    requires Distinct(front + [e])
    requires forall name :: HasSeen(c, front, name, ChannelAt(d, name).seen)
    requires d.handoff == if Survives(c, front, parse) then c.handoff else None
    ensures Accept(d, e, parse).handoff == if Survives(c, front + [e], parse) then c.handoff else None
  {
    hide CompareRecords;
    hide Outdates;
    var events := front + [e];
    assert forall f :: f in events <==> f in front || f == e;
    assert e in events && !e.dismissalOnly;
    assert HasSeen(c, front, e.channel, ChannelAt(d, e.channel).seen);
    if Seen(d, e) && !Seen(c, e) {
      var f :| f in front && f.channel == e.channel && f.key == e.key;
      assert f in events && f == e;
    }
  }

  lemma GreatestUnique(c: Cycle, events: seq<Event>, name: ChannelName, r: Option<Record>, s: Option<Record>,
                       parse: string -> Option<nat>)
    requires Distinct(events) && Greatest(c, events, name, r, parse) && Greatest(c, events, name, s, parse)
    ensures r == s
  {
    hide Before;
    if r.Some? && s.Some? { BeforeTotal(r.value, s.value, parse); }
    if e :| IsNews(c, events, name, e) && r == Some(RecordOf(e)) {
      if f :| IsNews(c, events, name, f) && s == Some(RecordOf(f)) {
        assert e.key == f.key;
      }
    }
  }

  /** Neither the order of the events nor a redelivery matters. */
  lemma OrderDoesNotMatter(c: Cycle, a: seq<Event>, b: seq<Event>, parse: string -> Option<nat>)
    requires Distinct(a) && forall e :: e in a <==> e in b
    ensures After(c, a, parse).handoff == After(c, b, parse).handoff
    ensures forall name :: ChannelAt(After(c, a, parse), name).accepted == ChannelAt(After(c, b, parse), name).accepted
    ensures forall name, k :: k in ChannelAt(After(c, a, parse), name).seen <==>
      k in ChannelAt(After(c, b, parse), name).seen
  {
    hide Before;
    hide Outdates;
    hide After;
    AfterMeaning(c, a, parse);
    AfterMeaning(c, b, parse);
    var d, e := After(c, a, parse), After(c, b, parse);
    assert forall name, f :: IsNews(c, a, name, f) <==> IsNews(c, b, name, f);
    forall name ensures ChannelAt(d, name).accepted == ChannelAt(e, name).accepted {
      assert Greatest(c, a, name, ChannelAt(d, name).accepted, parse);
      assert Greatest(c, b, name, ChannelAt(e, name).accepted, parse);
      assert Greatest(c, a, name, ChannelAt(e, name).accepted, parse);
      GreatestUnique(c, a, name, ChannelAt(d, name).accepted, ChannelAt(e, name).accepted, parse);
    }
    forall name, k ensures k in ChannelAt(d, name).seen <==> k in ChannelAt(e, name).seen {
      assert HasSeen(c, a, name, ChannelAt(d, name).seen) && HasSeen(c, b, name, ChannelAt(e, name).seen);
    }
  }
}
