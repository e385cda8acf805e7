/** Persisted review entries and their normal form (scripts/reviewer_bot_core/state_adapters.py, lines 28-386, and
    review_state_machine.py, lines 35-56). */
module ReviewEntries {
  import opened Strings

  // ----- Persisted values -----

  /** The names of fields; any other name is `Free`. */
  datatype Key =
    | Skipped | CurrentReviewer | CycleStartedAt | ActiveCycleStartedAt | AssignedAt | ActiveHeadSha
    | LastReviewerActivity | TransitionWarningSent | TransitionNoticeSentAt | AssignmentMethod | ReviewCompletedAt
    | ReviewCompletedBy | ReviewCompletionSource | MandatoryApproverRequired | MandatoryApproverLabelAppliedAt
    | MandatoryApproverPingedAt | MandatoryApproverSatisfiedBy | MandatoryApproverSatisfiedAt | OverdueAnchor
    | ReviewerComment | ReviewerReview | ContributorComment | ContributorRevision | ReviewDismissal
    | CurrentCycleCompletion | CurrentCycleWriteApproval | CurrentCycleReviewerHandoff
    | Accepted | SeenKeys | SemanticKey | Timestamp | Actor | ReviewedHeadSha | SourcePrecedence | Payload
    | SourceEventKey | CommandName
    | Sidecars | PendingPrivilegedCommands | DeferredGaps | ObserverDiscoveryWatermarks | ReconciledSourceEvents
    | RepairMarkers | RepairNeeded
    | ReviewRepair | HeadObservationRepair | StatusLabelProjection | IssueSnapshotRead | WarningDedupeRead | WarningPost
    | TransitionDedupeRead | TransitionPost | AssignmentAddWrite | AssignmentRemoveWrite | AssignmentConfirmRead
    | Kind | Phase | StatusCode | Reason | FailureKind | RetryAttempts | RecordedAt | LiveAssignees | ReconciledAt
    | Free(name: string)

  datatype Value =
    | Null
    | Bool(b: bool)
    | Number(n: int)
    | Text(text: string)
    | List(items: seq<Value>)
    | Dict(fields: map<Key, Value>)

  type Fields = map<Key, Value>

  /** Python's view of values: `str(value)`, `int(text)`, and the spelling of names. */
  datatype Python = Python(str: Value -> string, number: string -> Option<int>, spell: Key -> string,
                           name: string -> Key)

  predicate Truthy(v: Value) {
    match v
    case Null => false
    case Bool(b) => b
    case Number(n) => n != 0
    case Text(t) => t != ""
    case List(items) => items != []
    case Dict(fields) => fields != map[]
  }

  /** The values that Python takes for false. */
  lemma FalseExactly(v: Value)
    ensures !Truthy(v) <==> v in {Null, Bool(false), Number(0), Text(""), List([]), Dict(map[])}
  {
  }

  ghost predicate Lawful(py: Python) {
    && (forall s :: py.str(Text(s)) == s) && (forall v :: Truthy(v) ==> py.str(v) != "")
    && (forall s :: py.spell(py.name(s)) == s)
  }

  function GetOr(d: Fields, k: Key, default: Value): Value { if k in d then d[k] else default }

  function Get(d: Fields, k: Key): Value { GetOr(d, k, Null) }

  // ----- Typed entries -----

  datatype AcceptedRecord =
    | Full(key: string, timestamp: string, actor: Option<string>, head: Option<string>, precedence: int, payload: Value)
    | DismissalOnly(key: string, timestamp: string)

  datatype ChannelState = ChannelState(accepted: Option<AcceptedRecord>, seen: seq<Value>)

  datatype Handoff = Handoff(key: string, timestamp: string, actor: string, command: string, head: Option<string>)

  /** The fields of an entry: texts and channels by name. */
  datatype EntryState = EntryState(skipped: seq<Value>, texts: map<Key, Option<string>>, required: bool, anchor: Value,
                                   channels: map<Key, ChannelState>, completion: Fields, writeApproval: Fields,
                                   handoff: Option<Handoff>)

  predicate IsText(k: Key) {
    k.CurrentReviewer? || k.CycleStartedAt? || k.ActiveCycleStartedAt? || k.AssignedAt? || k.ActiveHeadSha? ||
    k.LastReviewerActivity? || k.TransitionWarningSent? || k.TransitionNoticeSentAt? || k.AssignmentMethod? ||
    k.ReviewCompletedAt? || k.ReviewCompletedBy? || k.ReviewCompletionSource? || k.MandatoryApproverLabelAppliedAt? ||
    k.MandatoryApproverPingedAt? || k.MandatoryApproverSatisfiedBy? || k.MandatoryApproverSatisfiedAt?
  }

  predicate IsChannel(k: Key) {
    k.ReviewerComment? || k.ReviewerReview? || k.ContributorComment? || k.ContributorRevision? || k.ReviewDismissal?
  }

  predicate IsOther(k: Key) {
    k.Skipped? || k.MandatoryApproverRequired? || k.OverdueAnchor? || k.CurrentCycleCompletion? ||
    k.CurrentCycleWriteApproval? || k.CurrentCycleReviewerHandoff?
  }

  /** The fields that hold a text or nothing. */
  function Texts(): (r: set<Key>)
    ensures forall k :: k in r <==> IsText(k)
  {
    {CurrentReviewer, CycleStartedAt, ActiveCycleStartedAt, AssignedAt, ActiveHeadSha, LastReviewerActivity,
     TransitionWarningSent, TransitionNoticeSentAt, AssignmentMethod, ReviewCompletedAt, ReviewCompletedBy,
     ReviewCompletionSource, MandatoryApproverLabelAppliedAt, MandatoryApproverPingedAt, MandatoryApproverSatisfiedBy,
     MandatoryApproverSatisfiedAt}
  }

  function Channels(): (r: set<Key>)
    ensures forall k :: k in r <==> IsChannel(k)
  {
    {ReviewerComment, ReviewerReview, ContributorComment, ContributorRevision, ReviewDismissal}
  }

  predicate WellTyped(s: EntryState) { s.texts.Keys == Texts() && s.channels.Keys == Channels() }

  // ----- From persisted -----

  function TextFrom(v: Value, py: Python): Option<string> { if v == Null then None else Some(py.str(v)) }

  /** `int(value)`; None where Python raises. */
  function IntFrom(v: Value, py: Python): Option<int> {
    match v
    case Bool(b) => Some(if b then 1 else 0)
    case Number(n) => Some(n)
    case Text(t) => py.number(t)
    case _ => None
  }

  function ItemsOf(v: Value): seq<Value> { if v.List? then v.items else [] }

  function FieldsOf(v: Value): Fields { if v.Dict? then v.fields else map[] }

  datatype Parsed<T> = Parsed(value: T) | Raises

  function AcceptedFrom(v: Value, py: Python): Parsed<Option<AcceptedRecord>> {
    if !v.Dict? then Parsed(None)
    else
      var a := v.fields;
      var key, timestamp := py.str(GetOr(a, SemanticKey, Text(""))), py.str(GetOr(a, Timestamp, Text("")));
      if a.Keys <= {SemanticKey, Timestamp} then Parsed(Some(DismissalOnly(key, timestamp)))
      else
        match IntFrom(GetOr(a, SourcePrecedence, Number(0)), py)
        case None => Raises
        case Some(precedence) =>
          var payload := if Truthy(Get(a, Payload)) then a[Payload] else Dict(map[]);
          Parsed(Some(Full(key, timestamp, TextFrom(Get(a, Actor), py), TextFrom(Get(a, ReviewedHeadSha), py),
                           precedence, payload)))
  }

  /** `_channel_from_persisted`. */
  function ChannelFrom(v: Value, py: Python): Parsed<ChannelState> {
    if !v.Dict? then Parsed(ChannelState(None, []))
    else
      match AcceptedFrom(Get(v.fields, Accepted), py)
      case Raises => Raises
      case Parsed(accepted) => Parsed(ChannelState(accepted, ItemsOf(Get(v.fields, SeenKeys))))
  }

  predicate IsFilled(v: Value) { v.Text? && !IsBlank(v.text) }

  const HANDOFF_KEYS: set<Key> := {SourceEventKey, Timestamp, Actor, CommandName, ReviewedHeadSha}

  /** `_reviewer_handoff_from_persisted`. */
  function HandoffFrom(v: Value): Option<Handoff> {
    if !v.Dict? || v.fields.Keys != HANDOFF_KEYS then None
    else
      var h := v.fields;
      assert forall k :: k in HANDOFF_KEYS ==> k in h.Keys;
      if !IsFilled(h[SourceEventKey]) || !IsFilled(h[Timestamp]) || !IsFilled(h[Actor]) then None
      else if h[CommandName] != Text("feedback") then None
      else if h[ReviewedHeadSha] != Null && !IsFilled(h[ReviewedHeadSha]) then None
      else Some(Handoff(h[SourceEventKey].text, h[Timestamp].text, h[Actor].text, "feedback",
                        if h[ReviewedHeadSha] == Null then None else Some(h[ReviewedHeadSha].text)))
  }

  /** `review_entry_from_persisted` on a dictionary. */
  function EntryFrom(d: Fields, py: Python): Parsed<EntryState> {
    if exists c | c in Channels() :: ChannelFrom(Get(d, c), py).Raises? then Raises
    else
      Parsed(EntryState(
        ItemsOf(Get(d, Skipped)),
        map k | k in Texts() :: TextFrom(Get(d, k), py),
        Truthy(Get(d, MandatoryApproverRequired)),
        Get(d, OverdueAnchor),
        map c | c in Channels() :: ChannelFrom(Get(d, c), py).value,
        FieldsOf(Get(d, CurrentCycleCompletion)),
        FieldsOf(Get(d, CurrentCycleWriteApproval)),
        HandoffFrom(Get(d, CurrentCycleReviewerHandoff))))
  }

  /** Reading is lenient: texts are anything but nothing, spelled out; a channel that is no dictionary is empty; in a
      record a missing key or time is the empty text and a missing precedence 0, true counts as 1 and a number in a text
      is read, and an empty payload is the empty dictionary; it raises only for a precedence that is no number. */
  lemma ReadsLeniently(v: Value, a: Fields, py: Python)
    ensures TextFrom(v, py) == None <==> v == Null
    ensures v != Null ==> TextFrom(v, py) == Some(py.str(v))
    ensures !v.Dict? ==> ChannelFrom(v, py) == Parsed(ChannelState(None, []))
    ensures
      var read := AcceptedFrom(Dict(a), py);
      read.Parsed? && read.value.Some? ==>
        && (SemanticKey !in a ==> read.value.value.key == py.str(Text("")))
        && (SemanticKey in a ==> read.value.value.key == py.str(a[SemanticKey]))
        && (Timestamp !in a ==> read.value.value.timestamp == py.str(Text("")))
        && (Timestamp in a ==> read.value.value.timestamp == py.str(a[Timestamp]))
    ensures !(a.Keys <= {SemanticKey, Timestamp}) ==>
      var n := if SourcePrecedence in a then a[SourcePrecedence] else Number(0);
      var read := AcceptedFrom(Dict(a), py);
      && (read.Raises? <==> n == Null || n.List? || n.Dict? || (n.Text? && py.number(n.text).None?))
      && (read.Parsed? ==>
            && read.value.Some? && read.value.value.Full?
            && (n.Number? ==> read.value.value.precedence == n.n)
            && (n == Bool(true) ==> read.value.value.precedence == 1)
            && (n == Bool(false) ==> read.value.value.precedence == 0)
            && (n.Text? ==> Some(read.value.value.precedence) == py.number(n.text))
            && (if Truthy(Get(a, Payload)) then read.value.value.payload == a[Payload]
                else read.value.value.payload == Dict(map[])))
  {
  }

  /** How each field of a stored entry is read: texts are spelled out unless missing or null, what should be a list or a
      dictionary and is none counts as empty, and whether an approver is required is what Python takes the value for. */
  lemma ReadsFields(d: Fields, py: Python, k: Key)
    requires EntryFrom(d, py).Parsed?
    ensures !EntryFrom(d, py).value.required <==>
      Get(d, MandatoryApproverRequired) in {Null, Bool(false), Number(0), Text(""), List([]), Dict(map[])}
    ensures var s := EntryFrom(d, py).value;
            && (IsText(k) ==> k in s.texts && s.texts[k] == if Get(d, k) == Null then None else Some(py.str(d[k])))
            && s.skipped == ItemsOf(Get(d, Skipped)) && s.anchor == Get(d, OverdueAnchor)
            && s.completion == FieldsOf(Get(d, CurrentCycleCompletion))
            && s.writeApproval == FieldsOf(Get(d, CurrentCycleWriteApproval))
  {
    FalseExactly(Get(d, MandatoryApproverRequired));
    hide Channels;
    hide ChannelFrom;
    hide HandoffFrom;
    hide Truthy;
    hide ItemsOf;
    hide FieldsOf;
    hide IsText;
    assert IsText(k) <==> k in Texts();
    hide Texts;
  }

  // ----- To persisted -----

  function TextTo(t: Option<string>): Value { if t.Some? then Text(t.value) else Null }

  function AcceptedTo(a: Option<AcceptedRecord>): Value {
    match a
    case None => Null
    case Some(DismissalOnly(key, timestamp)) => Dict(map[SemanticKey := Text(key), Timestamp := Text(timestamp)])
    case Some(Full(key, timestamp, actor, head, precedence, payload)) =>
      Dict(map[SemanticKey := Text(key), Timestamp := Text(timestamp), Actor := TextTo(actor),
               ReviewedHeadSha := TextTo(head), SourcePrecedence := Number(precedence), Payload := payload])
  }

  function ChannelTo(c: ChannelState): Value { Dict(map[Accepted := AcceptedTo(c.accepted), SeenKeys := List(c.seen)]) }

  function HandoffTo(h: Option<Handoff>): Value {
    match h
    case None => Null
    case Some(h) =>
      Dict(map[SourceEventKey := Text(h.key), Timestamp := Text(h.timestamp), Actor := Text(h.actor),
               CommandName := Text(h.command), ReviewedHeadSha := TextTo(h.head)])
  }

  function OthersTo(s: EntryState): (d: Fields)
    ensures forall k :: k in d <==> IsOther(k)
  {
    map[Skipped := List(s.skipped), MandatoryApproverRequired := Bool(s.required), OverdueAnchor := s.anchor,
        CurrentCycleCompletion := Dict(s.completion), CurrentCycleWriteApproval := Dict(s.writeApproval),
        CurrentCycleReviewerHandoff := HandoffTo(s.handoff)]
  }

  function TextsTo(s: EntryState): (d: Fields)
    requires WellTyped(s)
    ensures forall k :: k in d <==> IsText(k)
    ensures forall k :: IsText(k) ==> d[k] == TextTo(s.texts[k])
  {
    map k | k in s.texts.Keys :: TextTo(s.texts[k])
  }

  function ChannelsTo(s: EntryState): (d: Fields)
    requires WellTyped(s)
    ensures forall k :: k in d <==> IsChannel(k)
    ensures forall k :: IsChannel(k) ==> d[k] == ChannelTo(s.channels[k])
  {
    map c | c in s.channels.Keys :: ChannelTo(s.channels[c])
  }

  /** `review_entry_to_persisted`. */
  function EntryTo(s: EntryState): Fields
    requires WellTyped(s)
  {
    TextsTo(s) + ChannelsTo(s) + OthersTo(s)
  }

  lemma KindsDiffer(k: Key)
    ensures !(IsText(k) && IsChannel(k)) && !(IsText(k) && IsOther(k)) && !(IsChannel(k) && IsOther(k))
  {
  }

  lemma EntryToFields(s: EntryState)
    requires WellTyped(s)
    ensures forall k :: k in EntryTo(s) <==> IsText(k) || IsChannel(k) || IsOther(k)
    ensures Holds(EntryTo(s), s)
  {
    hide Texts;
    hide Channels;
    hide TextsTo;
    hide ChannelsTo;
    hide OthersTo;
    hide ChannelTo;
    hide TextTo;
    hide IsText;
    hide IsChannel;
    hide IsOther;
    forall k ensures !(IsText(k) && IsChannel(k)) && !(IsText(k) && IsOther(k)) && !(IsChannel(k) && IsOther(k)) {
      KindsDiffer(k);
    }
  }

  // ----- The round trip -----

  /** A payload that is stored as it is: the empty dictionary, or anything that is not empty. */
  predicate Storable(a: Option<AcceptedRecord>) {
    a.Some? && a.value.Full? ==> Truthy(a.value.payload) || a.value.payload == Dict(map[])
  }

  predicate StorableChannels(s: EntryState) { forall c | c in s.channels.Keys :: Storable(s.channels[c].accepted) }

  predicate ValidHandoff(h: Option<Handoff>) {
    h.Some? ==>
      && !IsBlank(h.value.key) && !IsBlank(h.value.timestamp) && !IsBlank(h.value.actor) &&
         h.value.command == "feedback"
      && (h.value.head.Some? ==> !IsBlank(h.value.head.value))
  }

  lemma ChannelRoundTrip(c: ChannelState, py: Python)
    requires Lawful(py)
    ensures Storable(c.accepted) <==> ChannelFrom(ChannelTo(c), py) == Parsed(c)
  {
    if c.accepted.Some? && c.accepted.value.DismissalOnly? {
      var a := AcceptedTo(c.accepted).fields;
      assert a.Keys == {SemanticKey, Timestamp};
    }
    if c.accepted.Some? && c.accepted.value.Full? {
      var a := AcceptedTo(c.accepted).fields;
      assert Actor in a;
      assert py.str(a[SemanticKey]) == c.accepted.value.key && py.str(a[Timestamp]) == c.accepted.value.timestamp;
    }
  }

  lemma HandoffRoundTrip(h: Option<Handoff>)
    ensures HandoffFrom(HandoffTo(h)) == h <==> ValidHandoff(h)
  {
    if h.Some? {
      var d := HandoffTo(h).fields;
      assert d.Keys == HANDOFF_KEYS;
    }
  }

  /** A stored value is read as a handoff exactly when it is what storing a valid handoff gives, and then as that one.
      */
  lemma ReadsHandoffExactly(v: Value, h: Handoff)
    ensures HandoffFrom(v) == Some(h) <==> v == HandoffTo(Some(h)) && ValidHandoff(Some(h))
  {
    HandoffRoundTrip(Some(h));
    if HandoffFrom(v) == Some(h) {
      var d, e := v.fields, HandoffTo(Some(h)).fields;
      assert d.Keys == e.Keys == HANDOFF_KEYS;
      assert d == e;
    }
  }

  /** The dictionary has the fields of the entry as they are stored. */
  ghost predicate Holds(d: Fields, s: EntryState)
    requires WellTyped(s)
  {
    && (forall k :: IsText(k) ==> k in d && d[k] == TextTo(s.texts[k]))
    && (forall k :: IsChannel(k) ==> k in d && d[k] == ChannelTo(s.channels[k]))
    && (forall k :: IsOther(k) ==> k in d && d[k] == OthersTo(s)[k])
  }

  /** Such a dictionary gives the entry back. */
  lemma EntryRoundTrip(s: EntryState, d: Fields, py: Python)
    requires Lawful(py) && WellTyped(s) && StorableChannels(s) && Holds(d, s)
    ensures EntryFrom(d, py) == Parsed(s) <==> ValidHandoff(s.handoff)
  {
    hide Truthy;
    hide ChannelFrom;
    hide ChannelTo;
    hide HandoffFrom;
    hide HandoffTo;
    hide Storable;
    hide Texts;
    hide Channels;
    HandoffRoundTrip(s.handoff);
    forall c | IsChannel(c) ensures ChannelFrom(Get(d, c), py) == Parsed(s.channels[c]) {
      assert c in d && Get(d, c) == ChannelTo(s.channels[c]);
      ChannelRoundTrip(s.channels[c], py);
    }
    forall k | IsText(k) ensures TextFrom(Get(d, k), py) == s.texts[k] {
      assert k in d && Get(d, k) == TextTo(s.texts[k]);
    }
    OtherFields(s, d);
    assert EntryFrom(d, py).Parsed?;
    var t := EntryFrom(d, py).value;
    assert t.texts == s.texts;
    assert t.channels == s.channels;
  }

  lemma OtherFields(s: EntryState, d: Fields)
    requires WellTyped(s) && Holds(d, s)
    ensures ItemsOf(Get(d, Skipped)) == s.skipped && Truthy(Get(d, MandatoryApproverRequired)) == s.required
    ensures Get(d, OverdueAnchor) == s.anchor && FieldsOf(Get(d, CurrentCycleCompletion)) == s.completion
    ensures FieldsOf(Get(d, CurrentCycleWriteApproval)) == s.writeApproval
    ensures Get(d, CurrentCycleReviewerHandoff) == HandoffTo(s.handoff)
  {
    hide ChannelTo;
    hide HandoffTo;
    hide Texts;
    hide Channels;
    hide IsText;
    hide IsChannel;
    assert IsOther(Skipped) && IsOther(MandatoryApproverRequired) && IsOther(OverdueAnchor) &&
      IsOther(CurrentCycleCompletion);
    assert IsOther(CurrentCycleWriteApproval) && IsOther(CurrentCycleReviewerHandoff);
  }

  /** `review_entry_from_persisted` undoes `review_entry_to_persisted` exactly on entries with a valid handoff. */
  lemma PersistedRoundTrip(s: EntryState, py: Python)
    requires Lawful(py) && WellTyped(s) && StorableChannels(s)
    ensures EntryFrom(EntryTo(s), py) == Parsed(s) <==> ValidHandoff(s.handoff)
  {
    hide *;
    EntryToFields(s);
    EntryRoundTrip(s, EntryTo(s), py);
  }

  /** What was read can be stored. */
  lemma ReadIsStorable(d: Fields, py: Python)
    requires EntryFrom(d, py).Parsed?
    ensures var s := EntryFrom(d, py).value; WellTyped(s) && StorableChannels(s) && ValidHandoff(s.handoff)
  {
    hide Texts;
    hide Channels;
    hide IsText;
    hide IsChannel;
    hide IsBlank;
    hide Truthy;
    hide ChannelFrom;
    hide Storable;
    var s := EntryFrom(d, py).value;
    forall c | c in s.channels.Keys ensures Storable(s.channels[c].accepted) {
      assert c in Channels() && s.channels[c] == ChannelFrom(Get(d, c), py).value;
      ReadChannelStorable(Get(d, c), py);
    }
  }

  lemma ReadChannelStorable(v: Value, py: Python)
    ensures ChannelFrom(v, py).Parsed? ==> Storable(ChannelFrom(v, py).value.accepted)
  {
  }

  // ----- Sidecars -----

  predicate IsMarker(k: Key) {
    k.ReviewRepair? || k.HeadObservationRepair? || k.StatusLabelProjection? || k.IssueSnapshotRead? ||
    k.WarningDedupeRead? || k.WarningPost? || k.TransitionDedupeRead? || k.TransitionPost? || k.AssignmentAddWrite? ||
    k.AssignmentRemoveWrite? || k.AssignmentConfirmRead?
  }

  function Markers(): (r: set<Key>)
    ensures forall k :: k in r <==> IsMarker(k)
  {
    {ReviewRepair, HeadObservationRepair, StatusLabelProjection, IssueSnapshotRead, WarningDedupeRead, WarningPost,
     TransitionDedupeRead, TransitionPost, AssignmentAddWrite, AssignmentRemoveWrite, AssignmentConfirmRead}
  }

  /** The fields that moved into the sidecars. */
  predicate IsLegacy(k: Key) {
    k.RepairNeeded? || k.PendingPrivilegedCommands? || k.DeferredGaps? || k.ObserverDiscoveryWatermarks? ||
    k.ReconciledSourceEvents?
  }

  /** `_migrate_repair_marker`. */
  function MigrateMarker(v: Value): Value {
    if !v.Dict? then Null
    else
      var m := v.fields;
      Dict(map[Kind := Get(m, Kind), Phase := Get(m, Phase), StatusCode := Get(m, StatusCode), Reason := Get(m, Reason),
               FailureKind := Get(m, FailureKind), RetryAttempts := Get(m, RetryAttempts),
               RecordedAt := Get(m, RecordedAt), LiveAssignees := Get(m, LiveAssignees)])
  }

  /** `_migrate_deferred_gaps`. */
  function MigrateGaps(legacy: Value): Value {
    if !legacy.Dict? then Dict(map[])
    else Dict(map k | k in legacy.fields && legacy.fields[k].Dict? :: legacy.fields[k])
  }

  function EventRecord(key: string, at: Value): Value { Dict(map[SourceEventKey := Text(key), ReconciledAt := at]) }

  function MigrateEvent(k: Key, v: Value, py: Python): Value {
    if !v.Dict? then EventRecord(py.spell(k), Null)
    else
      var named := Get(v.fields, SourceEventKey);
      EventRecord(if Truthy(named) then py.str(named) else py.spell(k), Get(v.fields, ReconciledAt))
  }

  function EventsListed(items: seq<Value>, py: Python): (d: Fields)
    ensures forall k :: k in d ==> exists s :: k == py.name(s) && d[k] == EventRecord(s, Null)
  {
    if items == [] then map[]
    else
      var d := EventsListed(items[..|items| - 1], py);
      var last := items[|items| - 1];
      if last.Text? then d[py.name(last.text) := EventRecord(last.text, Null)] else d
  }

  /** `_migrate_reconciled_source_events`. */
  function MigrateEvents(v: Value, py: Python): Value {
    match v
    case Dict(d) => Dict(map k | k in d :: MigrateEvent(k, d[k], py))
    case List(items) => Dict(EventsListed(items, py))
    case _ => Dict(map[])
  }

  /** The sidecar's own dictionary, or else the legacy one. */
  function OwnOrLegacy(own: Value, legacy: Value): Value {
    if own.Dict? then own else if legacy.Dict? then legacy else Dict(map[])
  }

  function OwnMarkers(stored: Value): (d: Fields)
    ensures forall k :: k in d <==> IsMarker(k)
    ensures forall k :: k in d ==> d[k] == MigrateMarker(Get(FieldsOf(stored), k))
  {
    map k | k in Markers() :: MigrateMarker(Get(FieldsOf(stored), k))
  }

  /** Where a legacy marker belongs, if anywhere. */
  function LegacyPlace(legacy: Value): (r: Option<Key>)
    ensures r.Some? ==> IsMarker(r.value) && legacy.Dict?
  {
    if !legacy.Dict? then None
    else if Get(legacy.fields, Kind) == Text("projection_failure") then Some(StatusLabelProjection)
    else if Get(legacy.fields, Phase) == Text("review_repair") then Some(ReviewRepair)
    else if Get(legacy.fields, Phase) == Text("head_observation_repair") then Some(HeadObservationRepair)
    else None
  }

  function RepairMarkersOf(stored: Value, legacy: Value): Fields {
    var place := LegacyPlace(legacy);
    if place.Some? then OwnMarkers(stored)[place.value := MigrateMarker(legacy)] else OwnMarkers(stored)
  }

  function EventsOf(own: Value, legacy: Value, py: Python): Value {
    MigrateEvents(if own != Null then own else legacy, py)
  }

  /** Five sidecars set, whatever else there is kept. */
  function Set(own: Fields, commands: Value, gaps: Value, watermarks: Value, events: Value, markers: Value): Fields {
    own[PendingPrivilegedCommands := commands][DeferredGaps := gaps][ObserverDiscoveryWatermarks := watermarks]
       [ReconciledSourceEvents := events][RepairMarkers := markers]
  }

  lemma SetFields(own: Fields, commands: Value, gaps: Value, watermarks: Value, events: Value, markers: Value)
    ensures var d := Set(own, commands, gaps, watermarks, events, markers);
            && Get(d, PendingPrivilegedCommands) == commands && Get(d, DeferredGaps) == gaps
            && Get(d, ObserverDiscoveryWatermarks) == watermarks && Get(d, ReconciledSourceEvents) == events
            && Get(d, RepairMarkers) == markers && Set(d, commands, gaps, watermarks, events, markers) == d
  {
  }

  function GapsOf(own: Value, legacy: Value): Value { if own.Dict? then own else MigrateGaps(legacy) }

  function SidecarsOf(d: Fields, py: Python): Fields {
    var own := FieldsOf(Get(d, Sidecars));
    Set(own,
        OwnOrLegacy(Get(own, PendingPrivilegedCommands), Get(d, PendingPrivilegedCommands)),
        GapsOf(Get(own, DeferredGaps), Get(d, DeferredGaps)),
        OwnOrLegacy(Get(own, ObserverDiscoveryWatermarks), Get(d, ObserverDiscoveryWatermarks)),
        EventsOf(Get(own, ReconciledSourceEvents), Get(d, ReconciledSourceEvents), py),
        Dict(RepairMarkersOf(Get(own, RepairMarkers), Get(d, RepairNeeded))))
  }

  function Legacy(): (r: set<Key>)
    ensures forall k :: k in r <==> IsLegacy(k)
  {
    {RepairNeeded, PendingPrivilegedCommands, DeferredGaps, ObserverDiscoveryWatermarks, ReconciledSourceEvents}
  }

  /** The entry with its sidecars in order and without the legacy fields. */
  function WithSidecars(d: Fields, py: Python): Fields { d[Sidecars := Dict(SidecarsOf(d, py))] - Legacy() }

  lemma WithSidecarsAt(d: Fields, py: Python, k: Key)
    ensures k == Sidecars ==> k in WithSidecars(d, py) && WithSidecars(d, py)[k] == Dict(SidecarsOf(d, py))
    ensures k != Sidecars && !IsLegacy(k) ==>
      Get(WithSidecars(d, py), k) == Get(d, k) && (k in WithSidecars(d, py) <==> k in d)
    ensures IsLegacy(k) ==> Get(WithSidecars(d, py), k) == Null
  {
    hide SidecarsOf;
    hide Legacy;
  }

  const CANONICAL_MARKERS: seq<Key> :=
    [ReviewRepair, HeadObservationRepair, StatusLabelProjection, IssueSnapshotRead, WarningDedupeRead, WarningPost,
     TransitionDedupeRead, TransitionPost, AssignmentAddWrite, AssignmentRemoveWrite, AssignmentConfirmRead]

  const LEGACY_KEYS: seq<Key> :=
    [RepairNeeded, PendingPrivilegedCommands, DeferredGaps, ObserverDiscoveryWatermarks, ReconciledSourceEvents]

  /** The loop over the canonical markers. */
  method ListMarkers(keys: seq<Key>, stored: Value) returns (m: Fields)
    ensures m == map k | k in keys :: MigrateMarker(Get(FieldsOf(stored), k))
  {
    hide MigrateMarker;
    hide Get;
    hide FieldsOf;
    NoMarker();
    m := map k | k in keys :: Null;
    for i := 0 to |keys|
      invariant forall k :: k in m <==> k in keys
      invariant forall k :: k in m ==> m[k] == if k in keys[..i] then MigrateMarker(Get(FieldsOf(stored), k)) else Null
    {
      assert keys[..i + 1] == keys[..i] + [keys[i]];
      var marker := Get(FieldsOf(stored), keys[i]);
      if marker.Dict? { m := m[keys[i] := MigrateMarker(marker)]; }
    }
    assert keys[..|keys|] == keys;
  }

  lemma NoMarker()
    ensures forall v: Value :: !v.Dict? ==> MigrateMarker(v) == Null
  {
  }

  lemma CanonicalListed(stored: Value)
    ensures (map k | k in CANONICAL_MARKERS :: MigrateMarker(Get(FieldsOf(stored), k))) == OwnMarkers(stored)
  {
    hide MigrateMarker;
    hide FieldsOf;
    CanonicalNames();
    hide Markers;
  }

  lemma CanonicalNames()
    ensures forall k :: k in CANONICAL_MARKERS <==> k in Markers()
  {
  }

  /** The canonical markers, and then the legacy marker. */
  method CanonicalMarkers(stored: Value, legacy: Value) returns (m: Fields)
    ensures m == RepairMarkersOf(stored, legacy)
  {
    hide MigrateMarker;
    hide OwnMarkers;
    hide FieldsOf;
    CanonicalListed(stored);
    m := ListMarkers(CANONICAL_MARKERS, stored);
    if legacy.Dict? {
      var migrated := MigrateMarker(legacy);
      if Get(legacy.fields, Kind) == Text("projection_failure") {
        m := m[StatusLabelProjection := migrated];
      } else if Get(legacy.fields, Phase) == Text("review_repair") {
        m := m[ReviewRepair := migrated];
      } else if Get(legacy.fields, Phase) == Text("head_observation_repair") {
        m := m[HeadObservationRepair := migrated];
      }
    }
  }

  /** The entry with one sidecar set. */
  function Placed(d: Fields, k: Key, v: Value): Fields { d[Sidecars := Dict(FieldsOf(Get(d, Sidecars))[k := v])] }

  /** A sidecar as it stands in the entry. */
  function Sidecar(d: Fields, k: Key): Value { Get(FieldsOf(Get(d, Sidecars)), k) }

  /** Setting one sidecar leaves the others and the fields of the entry as they are. */
  lemma PlacedKeeps(d: Fields, k: Key, v: Value, x: Key)
    requires x != k && x != Sidecars
    ensures Sidecar(Placed(d, k, v), x) == Sidecar(d, x) && Get(Placed(d, k, v), x) == Get(d, x)
  {
  }

  /** The five sidecars set one after the other, each from what the entry then says. */
  function Stepwise(d: Fields, py: Python): Fields {
    var a := Placed(d, PendingPrivilegedCommands,
                    OwnOrLegacy(Sidecar(d, PendingPrivilegedCommands), Get(d, PendingPrivilegedCommands)));
    var b := Placed(a, DeferredGaps, GapsOf(Sidecar(a, DeferredGaps), Get(a, DeferredGaps)));
    var c := Placed(b, ObserverDiscoveryWatermarks,
                    OwnOrLegacy(Sidecar(b, ObserverDiscoveryWatermarks), Get(b, ObserverDiscoveryWatermarks)));
    var e := Placed(c, ReconciledSourceEvents,
                    EventsOf(Sidecar(c, ReconciledSourceEvents), Get(c, ReconciledSourceEvents), py));
    Placed(e, RepairMarkers, Dict(RepairMarkersOf(Sidecar(e, RepairMarkers), Get(e, RepairNeeded))))
  }

  lemma PlacedFive(d: Fields, commands: Value, gaps: Value, watermarks: Value, events: Value, markers: Value)
    ensures var a := Placed(d, PendingPrivilegedCommands, commands);
            var b := Placed(a, DeferredGaps, gaps);
            var c := Placed(b, ObserverDiscoveryWatermarks, watermarks);
            var e := Placed(c, ReconciledSourceEvents, events);
            Placed(e, RepairMarkers, markers) ==
            d[Sidecars := Dict(Set(FieldsOf(Get(d, Sidecars)), commands, gaps, watermarks, events, markers))]
  {
  }

  /** The steps do not get into each other's way: all sidecars are what the entry said at first. */
  lemma StepwiseMeaning(d: Fields, py: Python)
    ensures Stepwise(d, py) == d[Sidecars := Dict(SidecarsOf(d, py))]
  {
    hide *;
    var commands := OwnOrLegacy(Sidecar(d, PendingPrivilegedCommands), Get(d, PendingPrivilegedCommands));
    var a := Placed(d, PendingPrivilegedCommands, commands);
    PlacedKeeps(d, PendingPrivilegedCommands, commands, DeferredGaps);
    PlacedKeeps(d, PendingPrivilegedCommands, commands, ObserverDiscoveryWatermarks);
    PlacedKeeps(d, PendingPrivilegedCommands, commands, ReconciledSourceEvents);
    PlacedKeeps(d, PendingPrivilegedCommands, commands, RepairMarkers);
    PlacedKeeps(d, PendingPrivilegedCommands, commands, RepairNeeded);
    var gaps := GapsOf(Sidecar(a, DeferredGaps), Get(a, DeferredGaps));
    var b := Placed(a, DeferredGaps, gaps);
    PlacedKeeps(a, DeferredGaps, gaps, ObserverDiscoveryWatermarks);
    PlacedKeeps(a, DeferredGaps, gaps, ReconciledSourceEvents);
    PlacedKeeps(a, DeferredGaps, gaps, RepairMarkers);
    PlacedKeeps(a, DeferredGaps, gaps, RepairNeeded);
    var watermarks := OwnOrLegacy(Sidecar(b, ObserverDiscoveryWatermarks), Get(b, ObserverDiscoveryWatermarks));
    var c := Placed(b, ObserverDiscoveryWatermarks, watermarks);
    PlacedKeeps(b, ObserverDiscoveryWatermarks, watermarks, ReconciledSourceEvents);
    PlacedKeeps(b, ObserverDiscoveryWatermarks, watermarks, RepairMarkers);
    PlacedKeeps(b, ObserverDiscoveryWatermarks, watermarks, RepairNeeded);
    var events := EventsOf(Sidecar(c, ReconciledSourceEvents), Get(c, ReconciledSourceEvents), py);
    var e := Placed(c, ReconciledSourceEvents, events);
    PlacedKeeps(c, ReconciledSourceEvents, events, RepairMarkers);
    PlacedKeeps(c, ReconciledSourceEvents, events, RepairNeeded);
    var markers := Dict(RepairMarkersOf(Sidecar(e, RepairMarkers), Get(e, RepairNeeded)));
    PlacedFive(d, commands, gaps, watermarks, events, markers);
    SidecarsAre(d, py);
    StepwiseIs(d, py);
  }

  lemma StepwiseIs(d: Fields, py: Python)
    ensures var a := Placed(d, PendingPrivilegedCommands,
                            OwnOrLegacy(Sidecar(d, PendingPrivilegedCommands), Get(d, PendingPrivilegedCommands)));
            var b := Placed(a, DeferredGaps, GapsOf(Sidecar(a, DeferredGaps), Get(a, DeferredGaps)));
            var c := Placed(b, ObserverDiscoveryWatermarks,
                            OwnOrLegacy(Sidecar(b, ObserverDiscoveryWatermarks), Get(b, ObserverDiscoveryWatermarks)));
            var e := Placed(c, ReconciledSourceEvents,
                            EventsOf(Sidecar(c, ReconciledSourceEvents), Get(c, ReconciledSourceEvents), py));
            Stepwise(d, py) ==
            Placed(e, RepairMarkers, Dict(RepairMarkersOf(Sidecar(e, RepairMarkers), Get(e, RepairNeeded))))
  {
  }

  lemma SidecarsAre(d: Fields, py: Python)
    ensures SidecarsOf(d, py) ==
      Set(FieldsOf(Get(d, Sidecars)),
          OwnOrLegacy(Sidecar(d, PendingPrivilegedCommands), Get(d, PendingPrivilegedCommands)),
          GapsOf(Sidecar(d, DeferredGaps), Get(d, DeferredGaps)),
          OwnOrLegacy(Sidecar(d, ObserverDiscoveryWatermarks), Get(d, ObserverDiscoveryWatermarks)),
          EventsOf(Sidecar(d, ReconciledSourceEvents), Get(d, ReconciledSourceEvents), py),
          Dict(RepairMarkersOf(Sidecar(d, RepairMarkers), Get(d, RepairNeeded))))
  {
  }

  class StoredEntry {
    var fields: Fields

    constructor (fields: Fields)
      ensures this.fields == fields
    {
      this.fields := fields;
    }

    method Pop(k: Key)
      modifies this
      ensures fields == old(fields) - {k}
    {
      fields := fields - {k};
    }

    /** An assignment to a key of the sidecars, which are made when there are none. */
    method SetSidecar(k: Key, v: Value)
      modifies this
      ensures fields == Placed(old(fields), k, v)
    {
      var sidecars := FieldsOf(Get(fields, Sidecars));
      fields := fields[Sidecars := Dict(sidecars[k := v])];
    }

    method SetOwnOrLegacy(k: Key)
      modifies this
      ensures fields == Placed(old(fields), k, OwnOrLegacy(Sidecar(old(fields), k), Get(old(fields), k)))
    {
      var v := Sidecar(fields, k);
      if !v.Dict? {
        v := Get(fields, k);
        if !v.Dict? { v := Dict(map[]); }
      }
      SetSidecar(k, v);
    }

    method SetGaps()
      modifies this
      ensures fields == Placed(old(fields), DeferredGaps,
                               GapsOf(Sidecar(old(fields), DeferredGaps), Get(old(fields), DeferredGaps)))
    {
      hide MigrateGaps;
      var gaps := Sidecar(fields, DeferredGaps);
      if !gaps.Dict? { gaps := MigrateGaps(Get(fields, DeferredGaps)); }
      SetSidecar(DeferredGaps, gaps);
    }

    method SetEvents(py: Python)
      modifies this
      ensures fields == Placed(old(fields), ReconciledSourceEvents,
                               EventsOf(Sidecar(old(fields), ReconciledSourceEvents),
                                        Get(old(fields), ReconciledSourceEvents), py))
    {
      hide MigrateEvents;
      var events := Sidecar(fields, ReconciledSourceEvents);
      if events == Null { events := Get(fields, ReconciledSourceEvents); }
      SetSidecar(ReconciledSourceEvents, MigrateEvents(events, py));
    }

    method SetMarkers()
      modifies this
      ensures fields == Placed(old(fields), RepairMarkers,
                               Dict(RepairMarkersOf(Sidecar(old(fields), RepairMarkers),
                                                    Get(old(fields), RepairNeeded))))
    {
      hide RepairMarkersOf;
      var markers := CanonicalMarkers(Sidecar(fields, RepairMarkers), Get(fields, RepairNeeded));
      SetSidecar(RepairMarkers, Dict(markers));
    }

    /** The sidecars are set one after the other, each from its own value or from the legacy field that it replaces. */
    method SetSidecars(py: Python)
      modifies this
      ensures fields == old(fields)[Sidecars := Dict(SidecarsOf(old(fields), py))]
    {
      hide *;
      StepwiseMeaning(fields, py);
      StepwiseIs(fields, py);
      SetOwnOrLegacy(PendingPrivilegedCommands);
      SetGaps();
      SetOwnOrLegacy(ObserverDiscoveryWatermarks);
      SetEvents(py);
      SetMarkers();
    }

    /** The loop over the legacy fields. */
    method DropLegacy()
      modifies this
      ensures fields == old(fields) - Legacy()
    {
      ghost var whole := fields;
      assert whole - (set k | k in LEGACY_KEYS[..0]) == whole;
      for i := 0 to |LEGACY_KEYS|
        invariant fields == whole - (set k | k in LEGACY_KEYS[..i])
      {
        assert LEGACY_KEYS[..i + 1] == LEGACY_KEYS[..i] + [LEGACY_KEYS[i]];
        Pop(LEGACY_KEYS[i]);
      }
      assert LEGACY_KEYS[..|LEGACY_KEYS|] == LEGACY_KEYS;
      assert forall k :: k in LEGACY_KEYS <==> k in Legacy();
    }

    /** `ensure_sidecar_subtree`. */
    method EnsureSidecars(py: Python)
      modifies this
      ensures fields == WithSidecars(old(fields), py)
    {
      hide SidecarsOf;
      hide Legacy;
      SetSidecars(py);
      DropLegacy();
    }

    /** `ensure_review_entry` on an entry that is a dictionary: False where Python raises, and then nothing changes. */
    method Ensure(py: Python) returns (ok: bool)
      modifies this
      ensures Normal(Dict(old(fields)), py) == if ok then Entry(fields) else Failed
      ensures !ok ==> fields == old(fields)
    {
      hide EntryTo;
      hide EntryFrom;
      hide WithSidecars;
      hide WellTyped;
      var core := EntryFrom(fields, py);
      if core.Raises? { return false; }
      ReadIsStorable(fields, py);
      fields := fields + EntryTo(core.value);
      EnsureSidecars(py);
      return true;
    }
  }

  datatype Normalised = Entry(fields: Fields) | NoEntry | Failed

  /** `ensure_review_entry` on a stored value: a list is the skipped list of an entry, anything else but a dictionary is
      no entry. */
  function Normal(v: Value, py: Python): Normalised {
    match v
    case List(items) => NormalFields(map[Skipped := List(items)], py)
    case Dict(d) => NormalFields(d, py)
    case _ => NoEntry
  }

  function NormalFields(d: Fields, py: Python): Normalised {
    match EntryFrom(d, py)
    case Raises => Failed
    case Parsed(s) =>
      ReadIsStorable(d, py);
      Entry(WithSidecars(d + EntryTo(s), py))
  }

  /** The stored value that `ensure_review_entry` starts from; an entry is made when there is none. */
  function Wanted(active: Value, issue: Key, create: bool): Value {
    var v := Get(FieldsOf(active), issue);
    if v == Null && create then Dict(map[]) else v
  }

  class ReviewState {
    var active: Value

    constructor (active: Value)
      ensures this.active == active
    {
      this.active := active;
    }

    /** `ensure_review_entry`. */
    method EnsureReviewEntry(issue: Key, create: bool, py: Python) returns (r: Normalised)
      modifies this
      ensures r == Normal(Wanted(old(active), issue, create), py)
      ensures active == Dict(if r.Entry? then FieldsOf(old(active))[issue := Dict(r.fields)] else FieldsOf(old(active)))
    {
      hide NormalFields;
      if !active.Dict? { active := Dict(map[]); }
      var v := Get(active.fields, issue);
      if v == Null {
        if !create { return NoEntry; }
        v := Dict(map[]);
      } else if v.List? {
        v := Dict(map[Skipped := List(v.items)]);
      }
      if !v.Dict? { return NoEntry; }
      var entry := new StoredEntry(v.fields);
      var ok := entry.Ensure(py);
      if !ok { return Failed; }
      active := Dict(active.fields[issue := Dict(entry.fields)]);
      return Entry(entry.fields);
    }
  }

  // ----- The normal form is a fixed point -----

  lemma EventsSettle(v: Value, py: Python)
    requires Lawful(py)
    ensures MigrateEvents(v, py).Dict? && MigrateEvents(MigrateEvents(v, py), py) == MigrateEvents(v, py)
  {
    hide Truthy;
    var e := MigrateEvents(v, py).fields;
    forall k | k in e ensures MigrateEvent(k, e[k], py) == e[k] {
      match v {
        case Dict(d) => EventSettles(k, d[k], py);
        case List(items) =>
          var s :| k == py.name(s) && e[k] == EventRecord(s, Null);
          RecordSettles(k, s, Null, py);
        case _ =>
      }
    }
    assert (map k | k in e :: MigrateEvent(k, e[k], py)) == e;
  }

  /** A record keeps its key when that is filled, or when the name it is stored under is empty too. */
  lemma RecordSettles(k: Key, s: string, at: Value, py: Python)
    requires Lawful(py) && (s != "" || py.spell(k) == "")
    ensures MigrateEvent(k, EventRecord(s, at), py) == EventRecord(s, at)
  {
  }

  lemma EventSettles(k: Key, v: Value, py: Python)
    requires Lawful(py)
    ensures MigrateEvent(k, MigrateEvent(k, v, py), py) == MigrateEvent(k, v, py)
  {
    if v.Dict? {
      var named := Get(v.fields, SourceEventKey);
      RecordSettles(k, if Truthy(named) then py.str(named) else py.spell(k), Get(v.fields, ReconciledAt), py);
    } else {
      RecordSettles(k, py.spell(k), Null, py);
    }
  }

  /** The markers are the canonical ones, each in its own form. */
  ghost predicate Settled(m: Fields) {
    forall k :: (k in m <==> IsMarker(k)) && (k in m ==> MigrateMarker(m[k]) == m[k])
  }

  lemma MarkersAreSettled(stored: Value, legacy: Value)
    ensures Settled(RepairMarkersOf(stored, legacy))
  {
    hide LegacyPlace;
    hide OwnMarkers;
    hide IsMarker;
    hide MigrateMarker;
    hide FieldsOf;
    MarkerSettles(legacy);
    forall k | k in OwnMarkers(stored) ensures MigrateMarker(OwnMarkers(stored)[k]) == OwnMarkers(stored)[k] {
      MarkerSettles(Get(FieldsOf(stored), k));
    }
  }

  lemma SettledStays(m: Fields)
    requires Settled(m)
    ensures OwnMarkers(Dict(m)) == m
  {
    hide OwnMarkers;
    hide IsMarker;
    hide MigrateMarker;
  }

  lemma MarkersSettle(stored: Value, legacy: Value)
    ensures RepairMarkersOf(Dict(RepairMarkersOf(stored, legacy)), Null) == RepairMarkersOf(stored, legacy)
  {
    hide LegacyPlace;
    hide OwnMarkers;
    hide Settled;
    MarkersAreSettled(stored, legacy);
    SettledStays(RepairMarkersOf(stored, legacy));
  }

  lemma MarkerSettles(v: Value)
    ensures MigrateMarker(MigrateMarker(v)) == MigrateMarker(v)
  {
  }

  /** Bringing the sidecars in order twice is bringing them in order once. */
  lemma SidecarsSettle(d: Fields, py: Python)
    requires Lawful(py)
    ensures WithSidecars(WithSidecars(d, py), py) == WithSidecars(d, py)
  {
    hide *;
    var e := WithSidecars(d, py);
    WithSidecarsAt(d, py, Sidecars);
    forall k | IsLegacy(k) ensures Get(e, k) == Null { WithSidecarsAt(d, py, k); }
    SameSidecars(d, e, py);
    OnceMore(d, e, py);
  }

  lemma OnceMore(d: Fields, e: Fields, py: Python)
    requires e == WithSidecars(d, py) && SidecarsOf(e, py) == SidecarsOf(d, py)
    ensures WithSidecars(e, py) == e
  {
    hide SidecarsOf;
    hide Legacy;
  }

  lemma SameSidecars(d: Fields, e: Fields, py: Python)
    requires Lawful(py) && Sidecars in e && e[Sidecars] == Dict(SidecarsOf(d, py))
    requires forall k :: IsLegacy(k) ==> Get(e, k) == Null
    ensures SidecarsOf(e, py) == SidecarsOf(d, py)
  {
    hide Lawful;
    hide MigrateEvents;
    hide MigrateGaps;
    hide RepairMarkersOf;
    hide Set;
    var own := FieldsOf(Get(d, Sidecars));
    var commands := OwnOrLegacy(Get(own, PendingPrivilegedCommands), Get(d, PendingPrivilegedCommands));
    var gaps := GapsOf(Get(own, DeferredGaps), Get(d, DeferredGaps));
    var watermarks := OwnOrLegacy(Get(own, ObserverDiscoveryWatermarks), Get(d, ObserverDiscoveryWatermarks));
    var events := EventsOf(Get(own, ReconciledSourceEvents), Get(d, ReconciledSourceEvents), py);
    var markers := Dict(RepairMarkersOf(Get(own, RepairMarkers), Get(d, RepairNeeded)));
    SetFields(own, commands, gaps, watermarks, events, markers);
    GapsAreFields(Get(own, DeferredGaps), Get(d, DeferredGaps));
    EventsSettle(if Get(own, ReconciledSourceEvents) != Null then Get(own, ReconciledSourceEvents)
                 else Get(d, ReconciledSourceEvents), py);
    MarkersSettle(Get(own, RepairMarkers), Get(d, RepairNeeded));
    assert IsLegacy(RepairNeeded);
  }

  lemma GapsAreFields(own: Value, legacy: Value)
    ensures GapsOf(own, legacy).Dict?
  {
  }

  /** `ensure_review_entry` is a projection: what it leaves behind it does not change again. */
  lemma NormalIsFixed(v: Value, py: Python)
    requires Lawful(py) && Normal(v, py).Entry?
    ensures Normal(Dict(Normal(v, py).fields), py) == Normal(v, py)
  {
    hide NormalFields;
    hide Lawful;
    FieldsAreFixed(if v.List? then map[Skipped := List(v.items)] else v.fields, py);
  }

  lemma FieldsAreFixed(d: Fields, py: Python)
    requires Lawful(py) && NormalFields(d, py).Entry?
    ensures NormalFields(NormalFields(d, py).fields, py) == NormalFields(d, py)
  {
    hide EntryFrom;
    hide EntryTo;
    hide WithSidecars;
    hide Lawful;
    hide WellTyped;
    hide Holds;
    hide ValidHandoff;
    hide StorableChannels;
    ReadIsStorable(d, py);
    var s := EntryFrom(d, py).value;
    var e := WithSidecars(d + EntryTo(s), py);
    CoreKept(s, d, py);
    EntryRoundTrip(s, e, py);
    CoreAgain(s, e);
    SidecarsSettle(d + EntryTo(s), py);
  }

  /** The sidecars leave the fields of the entry alone. */
  lemma CoreKept(s: EntryState, d: Fields, py: Python)
    requires WellTyped(s)
    ensures Holds(WithSidecars(d + EntryTo(s), py), s)
  {
    hide EntryTo;
    hide WithSidecars;
    hide IsText;
    hide IsChannel;
    hide IsOther;
    hide IsLegacy;
    hide TextTo;
    hide ChannelTo;
    hide OthersTo;
    EntryToFields(s);
    var e := WithSidecars(d + EntryTo(s), py);
    forall k | IsText(k) || IsChannel(k) || IsOther(k) ensures k in e && e[k] == EntryTo(s)[k] {
      NotSidecar(k);
      WithSidecarsAt(d + EntryTo(s), py, k);
    }
  }

  lemma NotSidecar(k: Key)
    requires IsText(k) || IsChannel(k) || IsOther(k)
    ensures k != Sidecars && !IsLegacy(k)
  {
  }

  lemma CoreAgain(s: EntryState, e: Fields)
    requires WellTyped(s) && Holds(e, s)
    ensures e + EntryTo(s) == e
  {
    hide EntryTo;
    hide IsText;
    hide IsChannel;
    hide IsOther;
    hide TextTo;
    hide ChannelTo;
    hide OthersTo;
    EntryToFields(s);
  }

  // ----- What normalising keeps -----

  /** Normalising changes nothing that is read of an entry, and no field that is not known. */
  lemma NormalKeeps(d: Fields, py: Python, k: Key)
    requires Lawful(py) && NormalFields(d, py).Entry?
    ensures EntryFrom(NormalFields(d, py).fields, py) == EntryFrom(d, py)
    ensures !IsText(k) && !IsChannel(k) && !IsOther(k) && !IsLegacy(k) && k != Sidecars ==>
      Get(NormalFields(d, py).fields, k) == Get(d, k)
  {
    hide EntryFrom;
    hide EntryTo;
    hide WithSidecars;
    hide Lawful;
    hide WellTyped;
    hide Holds;
    hide ValidHandoff;
    hide StorableChannels;
    hide IsText;
    hide IsChannel;
    hide IsOther;
    hide IsLegacy;
    ReadIsStorable(d, py);
    var s := EntryFrom(d, py).value;
    CoreKept(s, d, py);
    EntryRoundTrip(s, WithSidecars(d + EntryTo(s), py), py);
    EntryToFields(s);
    WithSidecarsAt(d + EntryTo(s), py, k);
  }

  // ----- What the sidecars hold -----

  const MARKER_FIELDS: set<Key> :=
    {Kind, Phase, StatusCode, Reason, FailureKind, RetryAttempts, RecordedAt, LiveAssignees}

  /** The marker has exactly the eight fields, each as `m` has it. */
  ghost predicate IsCopy(v: Value, m: Fields) {
    v.Dict? && v.fields.Keys == MARKER_FIELDS && forall f :: f in MARKER_FIELDS ==> Get(v.fields, f) == Get(m, f)
  }

  lemma MarkerIsCopied(v: Value)
    ensures if v.Dict? then IsCopy(MigrateMarker(v), v.fields) else MigrateMarker(v) == Null
  {
  }

  /** The legacy marker belongs under this name: by its kind, or else by its phase. */
  predicate NamesPlace(legacy: Value, k: Key) {
    legacy.Dict? &&
    var failed := Get(legacy.fields, Kind) == Text("projection_failure");
    || (k == StatusLabelProjection && failed)
    || (k == ReviewRepair && !failed && Get(legacy.fields, Phase) == Text("review_repair"))
    || (k == HeadObservationRepair && !failed && Get(legacy.fields, Phase) == Text("head_observation_repair"))
  }

  lemma PhasesDiffer(v: Value)
    ensures !(v == Text("review_repair") && v == Text("head_observation_repair"))
  {
    if v == Text("review_repair") { assert |v.text| == 13; }
  }

  lemma PlaceIsNamed(legacy: Value, k: Key)
    ensures LegacyPlace(legacy) == Some(k) <==> NamesPlace(legacy, k)
  {
    hide Get;
    if legacy.Dict? { PhasesDiffer(Get(legacy.fields, Phase)); }
  }

  /** Under every canonical name stands a copy of the legacy marker if that belongs there, and otherwise of the marker
      that stood there. */
  ghost predicate MarkersKept(markers: Value, stored: Value, legacy: Value) {
    markers.Dict? && forall k :: MarkerKept(markers.fields, stored, legacy, k)
  }

  ghost predicate MarkerKept(markers: Fields, stored: Value, legacy: Value, k: Key) {
    if !IsMarker(k) then k !in markers
    else
      && k in markers
      && if NamesPlace(legacy, k) then IsCopy(markers[k], legacy.fields)
         else if Get(FieldsOf(stored), k).Dict? then IsCopy(markers[k], Get(FieldsOf(stored), k).fields)
         else markers[k] == Null
  }

  lemma MarkersAreKept(stored: Value, legacy: Value)
    ensures MarkersKept(Dict(RepairMarkersOf(stored, legacy)), stored, legacy)
  {
    hide MigrateMarker;
    hide LegacyPlace;
    hide IsMarker;
    hide MarkerKept;
    forall k ensures MarkerKept(RepairMarkersOf(stored, legacy), stored, legacy, k) {
      OneMarkerKept(stored, legacy, k);
    }
  }

  lemma OneMarkerKept(stored: Value, legacy: Value, k: Key)
    ensures MarkerKept(RepairMarkersOf(stored, legacy), stored, legacy, k)
  {
    hide MigrateMarker;
    hide IsCopy;
    hide IsMarker;
    hide FieldsOf;
    PlaceIsNamed(legacy, k);
    NamedIsDict(legacy, k);
    hide NamesPlace;
    hide LegacyPlace;
    MarkerIsCopied(legacy);
    MarkerIsCopied(Get(FieldsOf(stored), k));
  }

  lemma NamedIsDict(legacy: Value, k: Key)
    ensures NamesPlace(legacy, k) ==> legacy.Dict?
  {
  }

  /** The gaps are the sidecar's own, or else the legacy ones that are dictionaries, as they are. */
  ghost predicate GapsKept(gaps: Value, own: Value, legacy: Value) {
    if own.Dict? then gaps == own
    else
      && gaps.Dict?
      && (forall k :: k in gaps.fields <==> k in FieldsOf(legacy) && FieldsOf(legacy)[k].Dict?)
      && (forall k :: k in gaps.fields ==> gaps.fields[k] == FieldsOf(legacy)[k])
  }

  lemma GapsAreKept(own: Value, legacy: Value)
    ensures GapsKept(GapsOf(own, legacy), own, legacy)
  {
  }

  ghost predicate IsEvent(v: Value, name: string, at: Value) {
    && v.Dict? && v.fields.Keys == {SourceEventKey, ReconciledAt}
    && v.fields[SourceEventKey] == Text(name) && v.fields[ReconciledAt] == at
  }

  /** The name that the record `v` stored under `k` is reconciled by: its own, or else that of the key. */
  function EventName(k: Key, v: Value, py: Python): string {
    if v.Dict? && Truthy(Get(v.fields, SourceEventKey)) then py.str(Get(v.fields, SourceEventKey)) else py.spell(k)
  }

  /** Every reconciled event keeps its name and its time; names in a list have no time. */
  ghost predicate EventsKept(events: Value, stored: Value, py: Python) {
    && events.Dict?
    && match stored
       case Dict(d) =>
         && events.fields.Keys == d.Keys
         && forall k :: k in d ==> IsEvent(events.fields[k], EventName(k, d[k], py), Get(FieldsOf(d[k]), ReconciledAt))
       case List(items) => ListKept(events.fields, items, py)
       case _ => events.fields == map[]
  }

  ghost predicate ListKept(e: Fields, items: seq<Value>, py: Python) {
    && (forall k :: k in e ==> exists s :: Text(s) in items && k == py.name(s))
    && (forall s :: Text(s) in items ==> py.name(s) in e)
    && (forall k :: k in e ==> IsEvent(e[k], py.spell(k), Null))
  }

  lemma NextListed(e: Fields, front: seq<Value>, last: string, py: Python)
    requires ListKept(e, front, py) && py.spell(py.name(last)) == last
    ensures ListKept(e[py.name(last) := EventRecord(last, Null)], front + [Text(last)], py)
  {
    var next, items := e[py.name(last) := EventRecord(last, Null)], front + [Text(last)];
    assert IsEvent(EventRecord(last, Null), last, Null);
    hide IsEvent;
    hide EventRecord;
    assert forall v :: v in items <==> v in front || v == Text(last);
    forall k | k in next ensures exists s :: Text(s) in items && k == py.name(s) {
      if k in e {
        var s :| Text(s) in front && k == py.name(s);
        assert Text(s) in items;
      } else {
        assert Text(last) in items;
      }
    }
  }

  lemma OtherListed(e: Fields, front: seq<Value>, last: Value, py: Python)
    requires ListKept(e, front, py) && !last.Text?
    ensures ListKept(e, front + [last], py)
  {
    hide IsEvent;
    assert forall s :: Text(s) in front + [last] <==> Text(s) in front;
  }

  lemma {:induction false} ListedEvents(items: seq<Value>, py: Python)
    requires Lawful(py)
    ensures ListKept(EventsListed(items, py), items, py)
    decreases |items|
  {
    hide Truthy;
    if items != [] {
      hide ListKept;
      var front, last := items[..|items| - 1], items[|items| - 1];
      assert items == front + [last];
      ListedEvents(front, py);
      if last.Text? { NextListed(EventsListed(front, py), front, last.text, py); }
      else { OtherListed(EventsListed(front, py), front, last, py); }
    }
  }

  lemma EventsAreKept(v: Value, py: Python)
    requires Lawful(py)
    ensures EventsKept(MigrateEvents(v, py), v, py)
  {
    hide Truthy;
    if v.List? { ListedEvents(v.items, py); }
  }

  /** The sidecars keep what was there, in the sidecars or else in the fields that they replace; what is not among the
      five is as it was. */
  ghost predicate SidecarsKeep(sidecars: Fields, own: Fields, d: Fields, py: Python) {
    && Get(sidecars, PendingPrivilegedCommands) ==
         (if Get(own, PendingPrivilegedCommands).Dict? then Get(own, PendingPrivilegedCommands)
          else Dict(FieldsOf(Get(d, PendingPrivilegedCommands))))
    && Get(sidecars, ObserverDiscoveryWatermarks) ==
         (if Get(own, ObserverDiscoveryWatermarks).Dict? then Get(own, ObserverDiscoveryWatermarks)
          else Dict(FieldsOf(Get(d, ObserverDiscoveryWatermarks))))
    && GapsKept(Get(sidecars, DeferredGaps), Get(own, DeferredGaps), Get(d, DeferredGaps))
    && EventsKept(Get(sidecars, ReconciledSourceEvents),
                  if Get(own, ReconciledSourceEvents) != Null then Get(own, ReconciledSourceEvents)
                  else Get(d, ReconciledSourceEvents), py)
    && MarkersKept(Get(sidecars, RepairMarkers), Get(own, RepairMarkers), Get(d, RepairNeeded))
    && forall k :: !IsSidecar(k) ==> (k in sidecars <==> k in own) && Get(sidecars, k) == Get(own, k)
  }

  predicate IsSidecar(k: Key) {
    k.PendingPrivilegedCommands? || k.DeferredGaps? || k.ObserverDiscoveryWatermarks? || k.ReconciledSourceEvents? ||
    k.RepairMarkers?
  }

  lemma SidecarsAreKept(d: Fields, py: Python)
    requires Lawful(py)
    ensures SidecarsKeep(SidecarsOf(d, py), FieldsOf(Get(d, Sidecars)), d, py)
  {
    hide Lawful;
    hide MigrateEvents;
    hide GapsOf;
    hide RepairMarkersOf;
    hide GapsKept;
    hide EventsKept;
    hide MarkersKept;
    hide Set;
    var own := FieldsOf(Get(d, Sidecars));
    var commands := OwnOrLegacy(Get(own, PendingPrivilegedCommands), Get(d, PendingPrivilegedCommands));
    var gaps := GapsOf(Get(own, DeferredGaps), Get(d, DeferredGaps));
    var watermarks := OwnOrLegacy(Get(own, ObserverDiscoveryWatermarks), Get(d, ObserverDiscoveryWatermarks));
    var events := EventsOf(Get(own, ReconciledSourceEvents), Get(d, ReconciledSourceEvents), py);
    var markers := Dict(RepairMarkersOf(Get(own, RepairMarkers), Get(d, RepairNeeded)));
    SetFields(own, commands, gaps, watermarks, events, markers);
    SetOthers(own, commands, gaps, watermarks, events, markers);
    GapsAreKept(Get(own, DeferredGaps), Get(d, DeferredGaps));
    EventsAreKept(if Get(own, ReconciledSourceEvents) != Null then Get(own, ReconciledSourceEvents)
                  else Get(d, ReconciledSourceEvents), py);
    MarkersAreKept(Get(own, RepairMarkers), Get(d, RepairNeeded));
  }

  lemma SetOthers(own: Fields, commands: Value, gaps: Value, watermarks: Value, events: Value, markers: Value)
    ensures var e := Set(own, commands, gaps, watermarks, events, markers);
            forall k :: !IsSidecar(k) ==> (k in e <==> k in own) && Get(e, k) == Get(own, k)
  {
  }

  /** An old entry that is a list is normalised, and read again it has that list as its skipped reviewers. */
  lemma ListIsSkipped(items: seq<Value>, py: Python)
    requires Lawful(py)
    ensures Normal(List(items), py).Entry?
    ensures
      var read := EntryFrom(Normal(List(items), py).fields, py);
      read.Parsed? && read.value.skipped == items
  {
    hide *;
    ReadsSkipped(items, py);
    NormalOfList(items, py);
    NormalKeeps(map[Skipped := List(items)], py, Skipped);
  }

  lemma NormalOfList(items: seq<Value>, py: Python)
    requires EntryFrom(map[Skipped := List(items)], py).Parsed?
    ensures Normal(List(items), py) == NormalFields(map[Skipped := List(items)], py)
    ensures NormalFields(map[Skipped := List(items)], py).Entry?
  {
    hide EntryFrom;
    hide EntryTo;
    hide WithSidecars;
  }

  lemma ReadsSkipped(items: seq<Value>, py: Python)
    ensures
      var read := EntryFrom(map[Skipped := List(items)], py);
      read.Parsed? && read.value.skipped == items
  {
    var d: Fields := map[Skipped := List(items)];
    forall c | c in Channels() ensures !ChannelFrom(Get(d, c), py).Raises? {
      hide *;
      ChannelNames(c);
      NoChannel(d, c, py);
    }
    assert Get(d, Skipped) == List(items);
    hide *;
    SkippedOf(d, py);
    assert ItemsOf(List(items)) == items by { ItemsOfList(items); }
  }

  lemma ItemsOfList(items: seq<Value>)
    ensures ItemsOf(List(items)) == items
  {
  }

  lemma SkippedOf(d: Fields, py: Python)
    requires forall c | c in Channels() :: !ChannelFrom(Get(d, c), py).Raises?
    ensures EntryFrom(d, py).Parsed? && EntryFrom(d, py).value.skipped == ItemsOf(Get(d, Skipped))
  {
    hide Channels;
    hide Texts;
    hide ChannelFrom;
    hide TextFrom;
    hide HandoffFrom;
    hide Truthy;
    hide Get;
    hide FieldsOf;
    hide ItemsOf;
  }

  lemma ChannelNames(c: Key)
    requires c in Channels()
    ensures IsChannel(c) && !IsChannel(Skipped)
  {
  }

  lemma NoChannel(d: Fields, c: Key, py: Python)
    requires c !in d
    ensures ChannelFrom(Get(d, c), py) == Parsed(ChannelState(None, []))
  {
  }

  /** What stood in the sidecars of an entry, or in the legacy fields, stands in the sidecars of its normal form:
      commands, watermarks, gaps, reconciled events with their times, and the repair markers with all their fields. */
  lemma NormalMoves(d: Fields, py: Python)
    requires Lawful(py) && NormalFields(d, py).Entry?
    ensures Get(NormalFields(d, py).fields, Sidecars).Dict?
    ensures SidecarsKeep(Get(NormalFields(d, py).fields, Sidecars).fields, FieldsOf(Get(d, Sidecars)), d, py)
    ensures forall k :: IsLegacy(k) ==> k !in NormalFields(d, py).fields
  {
    hide EntryFrom;
    hide EntryTo;
    hide WithSidecars;
    hide SidecarsOf;
    hide SidecarsKeep;
    hide Lawful;
    hide WellTyped;
    hide IsText;
    hide IsChannel;
    hide IsOther;
    hide IsLegacy;
    ReadIsStorable(d, py);
    var s := EntryFrom(d, py).value;
    var e := d + EntryTo(s);
    WithSidecarsAt(e, py, Sidecars);
    SidecarsAreKept(e, py);
    SameSources(d, s);
    SameKept(SidecarsOf(e, py), FieldsOf(Get(d, Sidecars)), d, e, py);
    forall k | IsLegacy(k) ensures k !in WithSidecars(e, py) { LegacyGone(e, py, k); }
  }

  lemma LegacyGone(d: Fields, py: Python, k: Key)
    requires IsLegacy(k)
    ensures k !in WithSidecars(d, py)
  {
    hide SidecarsOf;
  }

  /** Writing the fields of the entry leaves everything alone that the sidecars are made from. */
  lemma SameSources(d: Fields, s: EntryState)
    requires WellTyped(s)
    ensures forall k :: k == Sidecars || IsLegacy(k) ==> Get(d + EntryTo(s), k) == Get(d, k)
  {
    forall k | k == Sidecars || IsLegacy(k) ensures Get(d + EntryTo(s), k) == Get(d, k) {
      hide *;
      NotEntryField(k);
      NotWritten(d, s, k);
    }
  }

  lemma NotWritten(d: Fields, s: EntryState, k: Key)
    requires WellTyped(s) && !IsText(k) && !IsChannel(k) && !IsOther(k)
    ensures Get(d + EntryTo(s), k) == Get(d, k)
  {
    EntryToFields(s);
    hide EntryTo;
    hide Holds;
    hide WellTyped;
    hide IsText;
    hide IsChannel;
    hide IsOther;
  }

  lemma SameKept(sidecars: Fields, own: Fields, d: Fields, e: Fields, py: Python)
    requires forall k :: IsLegacy(k) ==> Get(e, k) == Get(d, k)
    ensures SidecarsKeep(sidecars, own, e, py) <==> SidecarsKeep(sidecars, own, d, py)
  {
    assert Get(e, RepairNeeded) == Get(d, RepairNeeded) && Get(e, DeferredGaps) == Get(d, DeferredGaps);
    assert Get(e, PendingPrivilegedCommands) == Get(d, PendingPrivilegedCommands);
    assert Get(e, ObserverDiscoveryWatermarks) == Get(d, ObserverDiscoveryWatermarks);
    assert Get(e, ReconciledSourceEvents) == Get(d, ReconciledSourceEvents);
    hide Get;
    hide GapsKept;
    hide EventsKept;
    hide MarkersKept;
    hide IsSidecar;
  }

  lemma NotEntryField(k: Key)
    requires k == Sidecars || IsLegacy(k)
    ensures !IsText(k) && !IsChannel(k) && !IsOther(k)
  {
  }
}
