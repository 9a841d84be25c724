/**
 Names, dates and the retention sort together: the entries `dated_entry` makes satisfy what the
 scheduler's theorems ask for, and snapshots that were given the same timestamp sort in the order in
 which they were created.
 */
module DatedSnapshots {
  import opened Wrappers
  import opened Sequences
  import opened Calendar
  import opened Naming
  import opened Retention
  import opened RetentionLaws
  import opened Model
  import opened Service

  /** What the name formats can write. */
  predicate Nameable(basename: string, dt: Zoned) {
    ValidZoned(dt) && 0 <= dt.local.year <= 9999 && dt.offset % 60 == 0 && basename != [] && '\n' !in basename
  }

  /** A snapshot of this timestamp with counter `c` is dated like the others, and counted `c`. */
  lemma EntryOfCounter(s: Subvolume, basename: string, dt: Zoned, fmt: TimestampFormat, reference: int, c: u32)
    requires Nameable(basename, dt) && s.path.FileName() == Some(NthName(MakeName(basename, dt, fmt), c))
    ensures
      var e := DatedEntryOf(s, reference);
      && e.Some? && e.value.nn == c && e.value.hasExactTime == (fmt != Short)
      && Seconds(e.value.local) == e.value.instant + reference + UNIX_EPOCH
      && e.value.instant
         == Seconds(Truncated(dt.local, fmt)) - (if fmt == LongIso then dt.offset else reference) - UNIX_EPOCH
  {
    NameRoundTrip(basename, dt, fmt, c);
  }

  /**
   In any directory, whatever was deleted before: a snapshot that gets the next free name of a timestamp
   sorts after every snapshot of that timestamp that is there.
   */
  lemma SortedByCreation(existing: seq<string>, older: Subvolume, newer: Subvolume, basename: string, dt: Zoned,
                         fmt: TimestampFormat, c: u32, reference: int, entries: seq<DatedEntry<Subvolume>>, p: nat,
                         q: nat)
    requires Nameable(basename, dt) && !UsedUp(MakeName(basename, dt, fmt), existing)
    requires NthName(MakeName(basename, dt, fmt), c) in existing
    requires older.path.FileName() == Some(NthName(MakeName(basename, dt, fmt), c))
    requires newer.path.FileName() == Some(NextFreeName(MakeName(basename, dt, fmt), existing))
    requires p < |entries| && DatedEntryOf(older, reference) == Some(SortEntries(entries)[p])
    requires q < |entries| && DatedEntryOf(newer, reference) == Some(SortEntries(entries)[q])
    ensures p < q
  {
    var next := NextCountsOn(MakeName(basename, dt, fmt), existing, c);
    EntryOfCounter(older, basename, dt, fmt, reference, c);
    EntryOfCounter(newer, basename, dt, fmt, reference, next);
    StrictlySorted(entries, p, q);
  }

  lemma StrictlySorted(entries: seq<DatedEntry<Subvolume>>, p: nat, q: nat)
    requires p < |entries| && q < |entries|
    requires !EntryLe(SortEntries(entries)[q], SortEntries(entries)[p])
    ensures p < q
  {
    EntryOrder();
    StableSortSorted(entries, EntryLe);
    assert EntryLe(SortEntries(entries)[p], SortEntries(entries)[p]);
  }

  lemma EntryOrder()
    ensures TotalPreorder<DatedEntry<Subvolume>>(EntryLe)
  {
  }

  // ---------------------------------------------------------------------------
  // What the scheduler is given
  // ---------------------------------------------------------------------------

  /** Instants and wall-clock readings are ordered alike, whatever offsets the names carry. */
  lemma OrderedAlike(a: Subvolume, b: Subvolume, reference: int)
    requires DatedEntryOf(a, reference).Some? && DatedEntryOf(b, reference).Some?
    ensures
      var x, y := DatedEntryOf(a, reference).value, DatedEntryOf(b, reference).value;
      x.instant <= y.instant <==> Seconds(x.local) <= Seconds(y.local)
  {
  }

  lemma EntryIsOnOffset(s: Subvolume, reference: int, e: DatedEntry<Subvolume>)
    requires DatedEntryOf(s, reference) == Some(e)
    ensures OnOffset(e, reference + UNIX_EPOCH)
  {
  }

  lemma SortedEntries(entries: seq<DatedEntry<Subvolume>>, offset: int)
    requires forall i :: 0 <= i < |entries| ==> OnOffset(entries[i], offset)
    ensures Timeline(SortEntries(entries), offset)
  {
    var es := SortEntries(entries);
    EntryOrder();
    StableSortSorted(entries, EntryLe);
    forall i | 0 <= i < |es| ensures OnOffset(es[i], offset) {
      assert es[i] in multiset(entries);
      var k :| 0 <= k < |entries| && entries[k] == es[i];
    }
  }

  /** The sorted entries of any list of subvolumes form a timeline. */
  lemma EntriesFormTimeline(candidates: seq<Subvolume>, reference: int)
    ensures Timeline(SortEntries(DatedEntries(candidates, reference)), reference + UNIX_EPOCH)
  {
    var entries := DatedEntries(candidates, reference);
    forall i | 0 <= i < |entries| ensures OnOffset(entries[i], reference + UNIX_EPOCH) {
      EntryIsOnOffset(entries[i].payload, reference, entries[i]);
    }
    SortedEntries(entries, reference + UNIX_EPOCH);
  }

  /** So a prune of subvolumes none of which is dated after `now` follows the flat rule. */
  lemma PruneFollowsFlatRule(candidates: seq<Subvolume>, policy: RetentionPolicy, now: Zoned, i: nat)
    requires ValidZoned(now) && policy.hourOfDay == 0
    requires i < |SortEntries(DatedEntries(candidates, now.offset))|
    requires WithinHorizon(SortEntries(DatedEntries(candidates, now.offset)), now.local)
    ensures
      var es := SortEntries(DatedEntries(candidates, now.offset));
      ValidEntries(es) && (Kept(policy, AllDeltas(es, now.local, policy), i) <==> FlatKeeps(es, policy, now.local, i))
  {
    var es := SortEntries(DatedEntries(candidates, now.offset));
    EntriesFormTimeline(candidates, now.offset);
    CascadeIsFlat(es, now.offset + UNIX_EPOCH, policy, now.local, i);
  }
}
