/** Reading the confirmed prefix of the Activity ledger: newline-terminated records, possibly followed by more. */
module LedgerPrefix {
  import opened Wrappers

  type Byte = n: nat | n < 256
  type Line = seq<Byte>
  const NEWLINE: Byte := 10
  const MAX_CONFIRMED_ACTIVITIES := 100_000

  datatype Activity = Activity(id: string, confirmationOrder: int)

  /** Reading one record: JSON and the Activity constructor together. */
  type Reader = Line -> Result<Activity>

  datatype Confirmed = Confirmed(activities: seq<Activity>, bytes: seq<Byte>)

  predicate IsRecord(line: Line) {
    line != [] && forall i | 0 <= i < |line| :: line[i] != NEWLINE
  }

  /** The records as they stand in the ledger, each with its newline. */
  function Joined(records: seq<Line>): seq<Byte> {
    if records == [] then [] else Joined(records[..|records| - 1]) + records[|records| - 1] + [NEWLINE]
  }

  /** Records that read as Activities 1, 2, ... with pairwise distinct identities. */
  predicate Reads(read: Reader, records: seq<Line>, activities: seq<Activity>) {
    && |records| == |activities|
    && (forall i | 0 <= i < |records| :: IsRecord(records[i]) && read(records[i]) == Success(activities[i]))
    && (forall i | 0 <= i < |activities| :: activities[i].confirmationOrder == i + 1)
    && (forall i, j | 0 <= i < j < |activities| :: activities[i].id != activities[j].id)
  }

  /** The ledger starts with these records. */
  predicate StartsWith(bytes: seq<Byte>, records: seq<Line>) {
    Joined(records) <= bytes
  }

  /** Where the next newline is, `|bytes|` when there is none. */
  function NextNewline(bytes: seq<Byte>, offset: nat): (k: nat)
    requires offset <= |bytes|
    ensures offset <= k <= |bytes|
    ensures forall i | offset <= i < k :: bytes[i] != NEWLINE
    ensures k < |bytes| ==> bytes[k] == NEWLINE
    decreases |bytes| - offset
  {
    if offset == |bytes| || bytes[offset] == NEWLINE then offset else NextNewline(bytes, offset + 1)
  }

  // ---------------------------------------------------------------- records are determined by the bytes

  lemma Inside(bytes: seq<Byte>, before: seq<Byte>, line: Line)
    requires before + line + [NEWLINE] <= bytes
    ensures |before| + |line| < |bytes| && bytes[|before| + |line|] == NEWLINE
    ensures bytes[|before|..|before| + |line|] == line
  {
    var n := |before| + |line|;
    assert bytes[..n + 1] == before + line + [NEWLINE];
    assert bytes[|before|..n] == bytes[..n + 1][|before|..n];
    assert bytes[n] == bytes[..n + 1][n];
  }

  /** The record behind a known prefix ends at the next newline. */
  lemma RecordAt(bytes: seq<Byte>, before: seq<Byte>, line: Line)
    requires before + line + [NEWLINE] <= bytes && (forall i | 0 <= i < |line| :: line[i] != NEWLINE)
    ensures NextNewline(bytes, |before|) == |before| + |line| < |bytes|
    ensures bytes[|before|..|before| + |line|] == line
  {
    Inside(bytes, before, line);
    forall i | |before| <= i < |before| + |line| ensures bytes[i] != NEWLINE {
      assert bytes[i] == bytes[|before|..|before| + |line|][i - |before|];
    }
    NewlineIs(bytes, |before|, |before| + |line|);
  }

  lemma NewlineIs(bytes: seq<Byte>, offset: nat, k: nat)
    requires offset <= k < |bytes| && bytes[k] == NEWLINE
    requires forall i | offset <= i < k :: bytes[i] != NEWLINE
    ensures NextNewline(bytes, offset) == k
  {
  }

  predicate AllRecords(records: seq<Line>) {
    forall i | 0 <= i < |records| :: IsRecord(records[i])
  }

  lemma {:induction false} JoinedPrefix(records: seq<Line>, n: nat)
    requires n <= |records|
    ensures Joined(records[..n]) <= Joined(records)
    decreases |records|
  {
    if n < |records| {
      JoinedPrefix(records[..|records| - 1], n);
      assert records[..|records| - 1][..n] == records[..n];
    } else {
      assert records[..n] == records;
    }
  }

  lemma JoinedStep(records: seq<Line>, n: nat)
    requires n < |records|
    ensures Joined(records[..n + 1]) == Joined(records[..n]) + records[n] + [NEWLINE]
  {
    assert records[..n + 1][..n] == records[..n];
  }

  /** Two lists of records at the start of the same bytes agree as far as both go. */
  lemma {:induction false} SameRecords(bytes: seq<Byte>, a: seq<Line>, b: seq<Line>, n: nat)
    requires StartsWith(bytes, a) && StartsWith(bytes, b) && AllRecords(a) && AllRecords(b)
    requires n <= |a| && n <= |b|
    ensures a[..n] == b[..n]
    decreases n
  {
    hide Joined, NextNewline;
    if n > 0 {
      SameRecords(bytes, a, b, n - 1);
      JoinedStep(a, n - 1);
      JoinedStep(b, n - 1);
      JoinedPrefix(a, n);
      JoinedPrefix(b, n);
      RecordAt(bytes, Joined(a[..n - 1]), a[n - 1]);
      RecordAt(bytes, Joined(b[..n - 1]), b[n - 1]);
      assert a[..n] == a[..n - 1] + [a[n - 1]] && b[..n] == b[..n - 1] + [b[n - 1]];
    }
  }

  // ---------------------------------------------------------------- reading

  /** The ledger confirms `k` Activities: it starts with `k` records that read as such. */
  ghost predicate Confirms(read: Reader, bytes: seq<Byte>, k: nat, records: seq<Line>, value: Confirmed) {
    && |records| == k
    && StartsWith(bytes, records) && value.bytes == Joined(records)
    && Reads(read, records, value.activities)
  }

  /** What has been read of any confirming list of records: exactly the records so far. */
  ghost predicate OnTrack(read: Reader, bytes: seq<Byte>, k: nat, index: nat, offset: nat, activities: seq<Activity>, records: seq<Line>) {
    && index <= k && offset <= |bytes|
    && Confirms(read, bytes, index, records, Confirmed(activities, bytes[..offset]))
  }

  lemma NextOnTrack(read: Reader, bytes: seq<Byte>, k: nat, index: nat, offset: nat, activities: seq<Activity>, records: seq<Line>,
                    all: seq<Line>, value: Confirmed)
    requires OnTrack(read, bytes, k, index, offset, activities, records) && index < k
    requires Confirms(read, bytes, k, all, value)
    ensures NextNewline(bytes, offset) < |bytes|
    ensures bytes[offset..NextNewline(bytes, offset)] == all[index]
    ensures all[..index] == records && value.activities[..index] == activities
  {
    SameRecords(bytes, all, records, index);
    assert records[..index] == records;
    JoinedStep(all, index);
    JoinedPrefix(all, index + 1);
    RecordAt(bytes, Joined(records), all[index]);
    assert |Joined(records)| == offset;
    forall i | 0 <= i < index ensures value.activities[i] == activities[i] {
      assert all[i] == records[i];
    }
  }

  lemma StepOnTrack(read: Reader, bytes: seq<Byte>, k: nat, index: nat, offset: nat, activities: seq<Activity>, records: seq<Line>, activity: Activity)
    requires OnTrack(read, bytes, k, index, offset, activities, records) && index < k
    requires NextNewline(bytes, offset) < |bytes| && NextNewline(bytes, offset) > offset
    requires read(bytes[offset..NextNewline(bytes, offset)]) == Success(activity)
    requires activity.confirmationOrder == index + 1 && forall a | a in activities :: a.id != activity.id
    ensures var end := NextNewline(bytes, offset);
            OnTrack(read, bytes, k, index + 1, end + 1, activities + [activity], records + [bytes[offset..end]])
  {
    var end := NextNewline(bytes, offset);
    var line := bytes[offset..end];
    assert IsRecord(line);
    assert (records + [line])[..index] == records;
    assert bytes[..end + 1] == bytes[..offset] + line + [NEWLINE];
  }

  /** A whole line that does not read as an Activity. */
  predicate Unreadable(read: Reader, bytes: seq<Byte>, offset: nat)
    requires offset <= |bytes|
  {
    var end := NextNewline(bytes, offset);
    offset < end < |bytes| && read(bytes[offset..end]).Failure?
  }

  /** The line at `offset` is not the next record, and this is the error for it. */
  predicate StopsAt(read: Reader, bytes: seq<Byte>, k: nat, index: nat, offset: nat, activities: seq<Activity>, error: string) {
    && index < k && offset <= |bytes|
    && !NextLine(read, bytes, index, offset, activities)
    && error == (if Unreadable(read, bytes, offset) then "CANONICAL_RECORD_UNREADABLE" else "CANONICAL_RECORD_INCONSISTENT")
  }

  /**
   Succeeds exactly if the ledger starts with as many valid records as are confirmed, and then returns
   their Activities and exactly their bytes, whatever follows. A failure names the first line behind valid
   records that is not the next one: unreadable if it is a whole line no Activity reads from, else inconsistent.
  */
  method ReadConfirmedLedger(read: Reader, bytes: seq<Byte>, confirmationOrder: nat) returns (r: Result<Confirmed>)
    ensures r.Success? ==> confirmationOrder <= 100_000 &&
                           exists records :: Confirms(read, bytes, confirmationOrder, records, r.value)
    ensures r.Failure? ==> confirmationOrder > 100_000 ||
                           forall records, value :: !Confirms(read, bytes, confirmationOrder, records, value)
    ensures r.Failure? && confirmationOrder <= 100_000 ==>
              exists index, offset, activities, records ::
                OnTrack(read, bytes, confirmationOrder, index, offset, activities, records) && StopsAt(read, bytes, confirmationOrder, index, offset, activities, r.error)
  {
    if confirmationOrder > MAX_CONFIRMED_ACTIVITIES { return Failure("CANONICAL_RECORD_INCONSISTENT"); }
    var activities: seq<Activity> := [];
    var ids: set<string> := {};
    var offset := 0;
    ghost var records: seq<Line> := [];
    var index := 0;
    while index < confirmationOrder
      invariant OnTrack(read, bytes, confirmationOrder, index, offset, activities, records)
      invariant forall id | id in ids :: exists a :: a in activities && a.id == id
      invariant forall a | a in activities :: a.id in ids
    {
      var end := NextNewline(bytes, offset);
      Expected(read, bytes, confirmationOrder, index, offset, activities, records);
      assert index < confirmationOrder && offset <= |bytes|;
      if end == |bytes| { return Failure("CANONICAL_RECORD_INCONSISTENT"); }
      var line := bytes[offset..end];
      if line == [] { return Failure("CANONICAL_RECORD_INCONSISTENT"); }
      var activity := read(line);
      if activity.Failure? { return Failure("CANONICAL_RECORD_UNREADABLE"); }
      if activity.value.confirmationOrder != index + 1 || activity.value.id in ids {
        return Failure("CANONICAL_RECORD_INCONSISTENT");
      }
      StepOnTrack(read, bytes, confirmationOrder, index, offset, activities, records, activity.value);
      ids := ids + {activity.value.id};
      activities := activities + [activity.value];
      records := records + [line];
      offset := end + 1;
      index := index + 1;
    }
    assert Confirms(read, bytes, confirmationOrder, records, Confirmed(activities, bytes[..offset]));
    return Success(Confirmed(activities, bytes[..offset]));
  }

  /** What the next line has to be if the ledger confirms all that is asked for. */
  predicate NextLine(read: Reader, bytes: seq<Byte>, index: nat, offset: nat, activities: seq<Activity>)
    requires offset <= |bytes|
  {
    var end := NextNewline(bytes, offset);
    && offset < end < |bytes|
    && read(bytes[offset..end]).Success?
    && read(bytes[offset..end]).value.confirmationOrder == index + 1
    && forall a | a in activities :: a.id != read(bytes[offset..end]).value.id
  }

  lemma Expected(read: Reader, bytes: seq<Byte>, k: nat, index: nat, offset: nat, activities: seq<Activity>, records: seq<Line>)
    requires OnTrack(read, bytes, k, index, offset, activities, records) && index < k
    ensures (exists all, value :: Confirms(read, bytes, k, all, value)) ==> NextLine(read, bytes, index, offset, activities)
  {
    if all, value :| Confirms(read, bytes, k, all, value) {
      NextOnTrack(read, bytes, k, index, offset, activities, records, all, value);
      forall a | a in activities ensures a.id != value.activities[index].id {
        var i :| 0 <= i < |activities| && activities[i] == a;
        assert value.activities[i] == value.activities[..index][i];
      }
    }
  }

  /** Any bytes may follow the records: what is confirmed does not depend on them. */
  lemma RestIsIgnored(read: Reader, records: seq<Line>, activities: seq<Activity>, rest: seq<Byte>)
    requires Reads(read, records, activities)
    ensures Confirms(read, Joined(records) + rest, |records|, records, Confirmed(activities, Joined(records)))
    ensures forall other, value :: Confirms(read, Joined(records) + rest, |records|, other, value) ==>
              value == Confirmed(activities, Joined(records))
  {
    hide Joined;
    var bytes := Joined(records) + rest;
    forall other, value | Confirms(read, bytes, |records|, other, value)
      ensures value == Confirmed(activities, Joined(records))
    {
      SameRecords(bytes, records, other, |records|);
      assert records[..|records|] == records && other[..|other|] == other;
      SameActivities(read, records, activities, value.activities);
    }
  }

  lemma SameActivities(read: Reader, records: seq<Line>, a: seq<Activity>, b: seq<Activity>)
    requires Reads(read, records, a) && Reads(read, records, b)
    ensures a == b
  {
    forall i | 0 <= i < |records| ensures a[i] == b[i] {
    }
  }

  /** Reading fewer confirmed records gives a prefix of what reading more of them gives. */
  lemma FewerIsPrefix(read: Reader, bytes: seq<Byte>, k: nat, n: nat, records: seq<Line>, value: Confirmed)
    requires Confirms(read, bytes, n, records, value) && k <= n
    ensures Confirms(read, bytes, k, records[..k], Confirmed(value.activities[..k], Joined(records[..k])))
    ensures Joined(records[..k]) <= value.bytes
  {
    JoinedPrefix(records, k);
  }
}
