/** The records of a review conversation and the orders in which the reviewer bot compares them. */
module ReviewRecords {
  import opened Strings

  /** What the bot accepted on a channel. */
  datatype Record = Record(key: string, timestamp: Option<string>, actor: Option<string>, head: Option<string>,
                           precedence: int)

  /** An accepted feedback command, as it is stored. */
  datatype Handoff = Handoff(command: Option<string>, key: Option<string>, timestamp: Option<string>,
                             actor: Option<string>, head: Option<string>)

  /** The instant of a stored timestamp; one that cannot be read counts as the earliest. */
  function Instant(timestamp: Option<string>, parse: string -> Option<nat>): nat {
    if timestamp.None? then 0
    else
      match parse(timestamp.value)
      case Some(t) => t
      case None => 0
  }

  /** Time, then precedence, then key. */
  predicate Before(a: Record, b: Record, parse: string -> Option<nat>) {
    var s, t := Instant(a.timestamp, parse), Instant(b.timestamp, parse);
    s < t || (s == t && (a.precedence < b.precedence || (a.precedence == b.precedence && LexLt(a.key, b.key))))
  }

  /** `compare_records`, where nothing is before everything, and two times nothing is not equal. */
  function CompareRecords(a: Option<Record>, b: Option<Record>, parse: string -> Option<nat>): int {
    if b.None? then 1
    else if a.None? then -1
    else if Before(b.value, a.value, parse) then 1
    else if Before(a.value, b.value, parse) then -1
    else 0
  }

  function KeyOf(r: Option<Record>): string { if r.Some? then r.value.key else "" }

  function InstantOf(r: Option<Record>, parse: string -> Option<nat>): nat {
    if r.Some? then Instant(r.value.timestamp, parse) else 0
  }

  /** Comparing across channels: only time and key count, and the contributor wins no tie but that of nothing with
      nothing. */
  function CompareConversation(contributor: Option<Record>, reviewer: Option<Record>,
                               parse: string -> Option<nat>): int {
    var s, t := InstantOf(contributor, parse), InstantOf(reviewer, parse);
    if s == t && KeyOf(contributor) == KeyOf(reviewer) then 0
    else if s > t then 1
    else if s < t then -1
    else if LexLe(KeyOf(reviewer), KeyOf(contributor)) then 1
    else -1
  }

  // ----- The order is total on records with different keys -----

  lemma BeforeTransitive(a: Record, b: Record, c: Record, parse: string -> Option<nat>)
    requires Before(a, b, parse) && Before(b, c, parse)
    ensures Before(a, c, parse)
  {
    if a.precedence == b.precedence == c.precedence && LexLe(a.key, b.key) && LexLe(b.key, c.key) {
      LexTransitive(a.key, b.key, c.key);
      LexTotal(a.key, b.key);
    }
  }

  /** A later time wins, among equal times the higher precedence, and among equal ones the greater key; a time that
      cannot be read is the earliest of all. */
  lemma WhatComesLater(a: Record, b: Record, parse: string -> Option<nat>)
    ensures InstantOf(Some(a), parse) > InstantOf(Some(b), parse) ==> Before(b, a, parse)
    ensures InstantOf(Some(a), parse) == InstantOf(Some(b), parse) && a.precedence > b.precedence ==>
      Before(b, a, parse)
    ensures InstantOf(Some(a), parse) == InstantOf(Some(b), parse) && a.precedence == b.precedence ==>
      (Before(b, a, parse) <==> LexLt(b.key, a.key))
    ensures (a.timestamp.None? || parse(a.timestamp.value).None?) ==>
      InstantOf(Some(a), parse) <= InstantOf(Some(b), parse)
    ensures a.timestamp.Some? && parse(a.timestamp.value).Some? ==>
      Some(InstantOf(Some(a), parse)) == parse(a.timestamp.value)
  {
  }

  lemma BeforeTotal(a: Record, b: Record, parse: string -> Option<nat>)
    ensures !(Before(a, b, parse) && Before(b, a, parse))
    ensures !Before(a, b, parse) && !Before(b, a, parse) ==> a.key == b.key
  {
    LexTotal(a.key, b.key);
  }

  lemma NotBeforeTransitive(a: Record, b: Record, c: Record, parse: string -> Option<nat>)
    requires !Before(a, b, parse) && !Before(b, c, parse)
    ensures !Before(a, c, parse)
  {
    LexTotal(a.key, b.key);
    LexTotal(b.key, c.key);
    if LexLe(b.key, a.key) && LexLe(c.key, b.key) {
      LexTransitive(c.key, b.key, a.key);
      LexTotal(a.key, c.key);
    }
  }
}
