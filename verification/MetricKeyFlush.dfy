/** The flush cycle over keys as text: what the scan returns is converted, and what does not parse is passed over. */
module MetricKeyFlush {
  import opened Wrappers
  import opened UuidText
  import opened MetricKeys
  import opened UsageFlush
  import opened UsageCycles

  /** A tracked key as text, with the outcomes of the commands and the flush it may lead to. */
  datatype Listed = Listed(text: string, read: ReadOutcome, commit: CommitOutcome, untracked: bool, deleted: bool)

  /** The scanned keys that parse, as pairs; `pair` names an API key and an hour by numbers. */
  function Parsed(listed: seq<Listed>, pair: ((Uuid, Time)) -> Key): seq<Scanned> {
    if listed == [] then []
    else
      var before, l := Parsed(listed[..|listed| - 1], pair), listed[|listed| - 1];
      match ParseKey(l.text)
      case Some(key) =>
        if TryFrom(l.text).Ok? then before + [Scanned(pair(key), l.read, l.commit, l.untracked, l.deleted)] else before
      case None => before
  }

  ghost predicate Printed(text: string) {
    exists id, now, g :: text == New(id, now, g)
  }

  lemma {:induction false} PrintedKeysAreSkipped(listed: seq<Listed>, pair: ((Uuid, Time)) -> Key)
    requires forall i :: 0 <= i < |listed| ==> Printed(listed[i].text)
    ensures Parsed(listed, pair) == []
  {
    if listed != [] {
      var l := listed[|listed| - 1];
      PrintedKeysAreSkipped(listed[..|listed| - 1], pair);
      var id, now, g :| l.text == New(id, now, g);
      NoKeyParses(id, now, g);
    }
  }

  /** A whole cycle over keys as they are printed changes neither store, whatever was counted in them. */
  lemma PrintedKeysAreNeverFlushed(s: System, listed: seq<Listed>, pair: ((Uuid, Time)) -> Key, maxBatch: nat,
                                   last: CommitOutcome, untracked: bool, deleted: bool)
    requires s.cycle.Scanning? && s.cycle.batch == []
    requires forall i :: 0 <= i < |listed| ==> Printed(listed[i].text)
    ensures FlushWhole(ScanAll(s, Parsed(listed, pair), maxBatch), last, untracked, deleted) == s
  {
    PrintedKeysAreSkipped(listed, pair);
  }
}
