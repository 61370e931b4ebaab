/** The discard policy: every selected partition gets a mount attempt; a
    partition that cannot be mounted has its whole extent discarded, and a
    mounted filesystem is trimmed when it supports trimming. */
module Planner {
  import opened Selection

  /** What a mount attempt of one partition yields: a failure, or a
      filesystem that may or may not expose a trim operation. */
  datatype MountOutcome = MountFailed | Mounted(hasTrim: bool)

  /** A mounted filesystem, remembered by the partition number it came from. */
  datatype Filesystem = Filesystem(partition: nat, hasTrim: bool)

  datatype Option<T> = None | Some(value: T)

  /** What the disk is told: discard a byte extent, or the trim issued by
      the filesystem mounted from a partition. */
  datatype Event = Discarded(offset: int, size: int) | Trimmed(partition: nat)

  /** The disk, seen only through the requests it receives. */
  class Disk {
    var log: seq<Event>

    constructor ()
      ensures log == []
    {
      log := [];
    }

    method Discard(offset: int, size: int)
      modifies this
      ensures log == old(log) + [Discarded(offset, size)]
    {
      log := log + [Discarded(offset, size)];
    }

    /** The trim of the filesystem mounted from partition `partition`. */
    method Trim(partition: nat)
      modifies this
      ensures log == old(log) + [Trimmed(partition)]
    {
      log := log + [Trimmed(partition)];
    }
  }

  /** The slot a mount attempt leaves in the filesystem list. */
  function Slot(number: nat, outcome: nat -> MountOutcome): Option<Filesystem> {
    match outcome(number)
    case MountFailed => None
    case Mounted(hasTrim) => Some(Filesystem(number, hasTrim))
  }

  /** The filesystem list: one slot per attempted number, in order. */
  function MountResults(numbers: seq<nat>, outcome: nat -> MountOutcome): seq<Option<Filesystem>> {
    if numbers == [] then []
    else MountResults(numbers[..|numbers| - 1], outcome) + [Slot(numbers[|numbers| - 1], outcome)]
  }

  /** The filesystem list has one slot per attempted partition, in order:
      empty exactly where the mount failed, otherwise that partition's
      filesystem. */
  lemma {:induction false} MountSlots(numbers: seq<nat>, outcome: nat -> MountOutcome)
    ensures var r := MountResults(numbers, outcome);
            |r| == |numbers| &&
            (forall k :: 0 <= k < |r| ==> (r[k] == None <==> outcome(numbers[k]) == MountFailed)) &&
            (forall k :: 0 <= k < |r| && r[k] != None ==>
               r[k].value == Filesystem(numbers[k], outcome(numbers[k]).hasTrim))
  {
    if numbers != [] {
      MountSlots(numbers[..|numbers| - 1], outcome);
    }
  }

  /** The discards issued while the partitions `numbers` are mounted in turn. */
  function FailureDiscards(ps: seq<Partition>, numbers: seq<nat>, outcome: nat -> MountOutcome): seq<Event>
    requires Numbers(ps, numbers)
  {
    if numbers == [] then []
    else
      var n := numbers[|numbers| - 1];
      FailureDiscards(ps, numbers[..|numbers| - 1], outcome)
        + (if outcome(n) == MountFailed then [Discarded(ps[n - 1].offset, ps[n - 1].size)] else [])
  }

  /** The trims issued over a filesystem list. */
  function TrimEvents(filesystems: seq<Option<Filesystem>>): seq<Event> {
    if filesystems == [] then []
    else
      var slot := filesystems[|filesystems| - 1];
      TrimEvents(filesystems[..|filesystems| - 1])
        + (if slot != None && slot.value.hasTrim then [Trimmed(slot.value.partition)] else [])
  }

  /** Everything the disk receives from the policy on a partition table. */
  function PlanEvents(ps: seq<Partition>, outcome: nat -> MountOutcome): seq<Event> {
    FailureDiscards(ps, Selected(ps), outcome) + TrimEvents(MountResults(Selected(ps), outcome))
  }

  // ----- The policy as the pipeline runs it -----

  /** Try to mount each selected partition; on failure discard the
      partition's whole extent, looked up by its number, and leave an empty slot. */
  method MountAll(disk: Disk, ghost partitions: seq<Partition>, numbers: seq<nat>,
                  byNumber: map<nat, Partition>, outcome: nat -> MountOutcome)
    returns (filesystems: seq<Option<Filesystem>>)
    requires Numbers(partitions, numbers)
    requires forall k :: 0 <= k < |numbers| ==>
               numbers[k] in byNumber && byNumber[numbers[k]] == partitions[numbers[k] - 1]
    modifies disk
    ensures filesystems == MountResults(numbers, outcome)
    ensures disk.log == old(disk.log) + FailureDiscards(partitions, numbers, outcome)
  {
    filesystems := [];
    var i := 0;
    while i < |numbers|
      invariant 0 <= i <= |numbers|
      invariant filesystems == MountResults(numbers[..i], outcome)
      invariant disk.log == old(disk.log) + FailureDiscards(partitions, numbers[..i], outcome)
    {
      assert numbers[..i + 1][..i] == numbers[..i];
      var number := numbers[i];
      match outcome(number) {
        case MountFailed =>
          var part := byNumber[number];
          disk.Discard(part.offset, part.size);
          filesystems := filesystems + [None];
        case Mounted(hasTrim) =>
          filesystems := filesystems + [Some(Filesystem(number, hasTrim))];
      }
      i := i + 1;
    }
    assert numbers[..i] == numbers;
  }

  /** Trim every mounted filesystem that exposes trim; skip empty slots and
      filesystems without trim. */
  method TrimAll(disk: Disk, filesystems: seq<Option<Filesystem>>)
    modifies disk
    ensures disk.log == old(disk.log) + TrimEvents(filesystems)
  {
    var i := 0;
    while i < |filesystems|
      invariant 0 <= i <= |filesystems|
      invariant disk.log == old(disk.log) + TrimEvents(filesystems[..i])
    {
      assert filesystems[..i + 1][..i] == filesystems[..i];
      var fs := filesystems[i];
      if fs != None {
        if fs.value.hasTrim {
          disk.Trim(fs.value.partition);
        }
      }
      i := i + 1;
    }
    assert filesystems[..i] == filesystems;
  }

  /** Selection, mounting with discard fallback, then trimming. */
  method ApplyDiscardPolicy(disk: Disk, partitions: seq<Partition>, outcome: nat -> MountOutcome)
    modifies disk
    ensures disk.log == old(disk.log) + PlanEvents(partitions, outcome)
  {
    var numbers, byNumber := SelectPartitions(partitions);
    LookupCoversSelection(partitions, numbers, byNumber);
    ghost var start := disk.log;
    ghost var discards := FailureDiscards(partitions, numbers, outcome);
    var filesystems := MountAll(disk, partitions, numbers, byNumber, outcome);
    TrimAll(disk, filesystems);
    LogAppend(start, discards, TrimEvents(filesystems));
  }

  /** Regrouping of log appends, kept apart so the policy's proof stays small. */
  lemma LogAppend(start: seq<Event>, first: seq<Event>, second: seq<Event>)
    ensures (start + first) + second == start + (first + second)
  {
  }

  /** The dictionary built by the selection holds every selected number,
      mapped to its own descriptor. */
  lemma LookupCoversSelection(ps: seq<Partition>, numbers: seq<nat>, byNumber: map<nat, Partition>)
    requires forall n :: n in byNumber <==> n in numbers
    requires forall n :: n in byNumber ==> 1 <= n <= |ps| && byNumber[n] == ps[n - 1]
    ensures forall k :: 0 <= k < |numbers| ==>
              numbers[k] in byNumber && byNumber[numbers[k]] == ps[numbers[k] - 1]
  {
  }

  // ----- What the policy promises -----

  function Failed(outcome: nat -> MountOutcome): nat -> bool {
    (n: nat) => outcome(n) == MountFailed
  }

  function Trimmable(outcome: nat -> MountOutcome): nat -> bool {
    (n: nat) => outcome(n) == Mounted(true)
  }

  /** The elements of `s` that `keep` accepts, in order. */
  function Filter(s: seq<nat>, keep: nat -> bool): seq<nat> {
    if s == [] then []
    else Filter(s[..|s| - 1], keep) + (if keep(s[|s| - 1]) then [s[|s| - 1]] else [])
  }

  lemma {:induction false} FilterMembers(s: seq<nat>, keep: nat -> bool, x: nat)
    ensures x in Filter(s, keep) <==> x in s && keep(x)
  {
    if s != [] {
      FilterMembers(s[..|s| - 1], keep, x);
      assert s == s[..|s| - 1] + [s[|s| - 1]];
    }
  }

  lemma {:induction false} FilterIncreasing(s: seq<nat>, keep: nat -> bool)
    requires Increasing(s)
    ensures Increasing(Filter(s, keep))
  {
    if s != [] {
      var init := s[..|s| - 1];
      FilterIncreasing(init, keep);
      var f := Filter(init, keep);
      forall k | 0 <= k < |f| ensures f[k] < s[|s| - 1] {
        FilterMembers(init, keep, f[k]);
      }
    }
  }

  /** Partitions whose mount fails, in table order. */
  function FailedNumbers(ps: seq<Partition>, outcome: nat -> MountOutcome): seq<nat> {
    Filter(Selected(ps), Failed(outcome))
  }

  /** Partitions that mount with a trimmable filesystem, in table order. */
  function TrimmedNumbers(ps: seq<Partition>, outcome: nat -> MountOutcome): seq<nat> {
    Filter(Selected(ps), Trimmable(outcome))
  }

  /** The failed partitions are exactly the Linux partitions whose mount
      fails, each listed once. */
  lemma FailedNumbersMembers(ps: seq<Partition>, outcome: nat -> MountOutcome, n: nat)
    ensures n in FailedNumbers(ps, outcome) <==>
              1 <= n <= |ps| && IsLinux(ps[n - 1]) && outcome(n) == MountFailed
    ensures Increasing(FailedNumbers(ps, outcome))
  {
    FilterMembers(Selected(ps), Failed(outcome), n);
    SelectedMembers(ps, n);
    SelectedIncreasing(ps);
    FilterIncreasing(Selected(ps), Failed(outcome));
  }

  /** The trimmed partitions are exactly the Linux partitions that mount
      with trim support, each listed once. */
  lemma TrimmedNumbersMembers(ps: seq<Partition>, outcome: nat -> MountOutcome, n: nat)
    ensures n in TrimmedNumbers(ps, outcome) <==>
              1 <= n <= |ps| && IsLinux(ps[n - 1]) && outcome(n) == Mounted(true)
    ensures Increasing(TrimmedNumbers(ps, outcome))
  {
    FilterMembers(Selected(ps), Trimmable(outcome), n);
    SelectedMembers(ps, n);
    SelectedIncreasing(ps);
    FilterIncreasing(Selected(ps), Trimmable(outcome));
  }

  /** `d` is, one to one and in order, the discards of the extents of the
      partitions numbered in `f`. */
  predicate DiscardsOf(ps: seq<Partition>, d: seq<Event>, f: seq<nat>) {
    |d| == |f| &&
    forall j :: 0 <= j < |f| ==> 1 <= f[j] <= |ps| && d[j] == Discarded(ps[f[j] - 1].offset, ps[f[j] - 1].size)
  }

  /** One mount attempt more: the discards and the failed numbers grow together. */
  lemma DiscardStep(ps: seq<Partition>, numbers: seq<nat>, outcome: nat -> MountOutcome)
    requires Numbers(ps, numbers) && numbers != []
    ensures var n := numbers[|numbers| - 1];
            var failed := outcome(n) == MountFailed;
            FailureDiscards(ps, numbers, outcome)
              == FailureDiscards(ps, numbers[..|numbers| - 1], outcome)
                 + (if failed then [Discarded(ps[n - 1].offset, ps[n - 1].size)] else []) &&
            Filter(numbers, Failed(outcome))
              == Filter(numbers[..|numbers| - 1], Failed(outcome)) + (if failed then [n] else [])
  {
  }

  lemma {:induction false} DiscardsFollowFailures(ps: seq<Partition>, numbers: seq<nat>, outcome: nat -> MountOutcome)
    requires Numbers(ps, numbers)
    ensures DiscardsOf(ps, FailureDiscards(ps, numbers, outcome), Filter(numbers, Failed(outcome)))
  {
    if numbers != [] {
      var init, n := numbers[..|numbers| - 1], numbers[|numbers| - 1];
      DiscardsFollowFailures(ps, init, outcome);
      DiscardStep(ps, numbers, outcome);
      var d0, f0 := FailureDiscards(ps, init, outcome), Filter(init, Failed(outcome));
      var failed := outcome(n) == MountFailed;
      var d := d0 + (if failed then [Discarded(ps[n - 1].offset, ps[n - 1].size)] else []);
      var f := f0 + (if failed then [n] else []);
      forall j | 0 <= j < |f|
        ensures 1 <= f[j] <= |ps| && d[j] == Discarded(ps[f[j] - 1].offset, ps[f[j] - 1].size)
      {
        if j < |f0| {
          assert f[j] == f0[j] && d[j] == d0[j];
        }
      }
      assert DiscardsOf(ps, d, f);
    }
  }

  lemma {:induction false} TrimsFollowSlots(numbers: seq<nat>, outcome: nat -> MountOutcome)
    ensures var t, f := TrimEvents(MountResults(numbers, outcome)), Filter(numbers, Trimmable(outcome));
            |t| == |f| && forall j :: 0 <= j < |f| ==> t[j] == Trimmed(f[j])
  {
    if numbers != [] {
      var init := numbers[..|numbers| - 1];
      TrimsFollowSlots(init, outcome);
      MountSlots(init, outcome);
      assert MountResults(numbers, outcome)[..|numbers| - 1] == MountResults(init, outcome);
    }
  }

  /** One discard per failed partition, in order, over that partition's own
      extent; the discards come before every trim. */
  lemma DiscardPerFailedPartition(ps: seq<Partition>, outcome: nat -> MountOutcome)
    ensures var f := FailedNumbers(ps, outcome);
            |f| <= |PlanEvents(ps, outcome)| &&
            forall j :: 0 <= j < |f| ==>
              (1 <= f[j] <= |ps| &&
               PlanEvents(ps, outcome)[j] == Discarded(ps[f[j] - 1].offset, ps[f[j] - 1].size))
  {
    DiscardsFollowFailures(ps, Selected(ps), outcome);
  }

  /** After the discards, one trim per trimmable partition, in order. */
  lemma TrimPerTrimmablePartition(ps: seq<Partition>, outcome: nat -> MountOutcome)
    ensures var e, f, t := PlanEvents(ps, outcome), FailedNumbers(ps, outcome), TrimmedNumbers(ps, outcome);
            |e| == |f| + |t| &&
            forall j :: 0 <= j < |t| ==> e[|f| + j] == Trimmed(t[j])
  {
    DiscardsFollowFailures(ps, Selected(ps), outcome);
    TrimsFollowSlots(Selected(ps), outcome);
  }

  /** A partition is trimmed if and only if it is a Linux partition whose
      mount yields a filesystem that exposes trim. */
  lemma TrimmedIff(ps: seq<Partition>, outcome: nat -> MountOutcome, n: nat)
    ensures Trimmed(n) in PlanEvents(ps, outcome) <==>
              1 <= n <= |ps| && IsLinux(ps[n - 1]) && outcome(n) == Mounted(true)
  {
    var e, f, t := PlanEvents(ps, outcome), FailedNumbers(ps, outcome), TrimmedNumbers(ps, outcome);
    DiscardPerFailedPartition(ps, outcome);
    TrimPerTrimmablePartition(ps, outcome);
    TrimmedNumbersMembers(ps, outcome, n);
    if Trimmed(n) in e {
      var i :| 0 <= i < |e| && e[i] == Trimmed(n);
      if i >= |f| {
        assert e[|f| + (i - |f|)] == Trimmed(t[i - |f|]);
      }
    }
    if n in t {
      var j :| 0 <= j < |t| && t[j] == n;
      assert e[|f| + j] == Trimmed(n);
    }
  }

  /** A partition whose type is not Linux is never mounted, discarded or
      trimmed. */
  lemma OtherPartitionsUntouched(ps: seq<Partition>, outcome: nat -> MountOutcome, i: nat)
    requires i < |ps| && !IsLinux(ps[i])
    ensures i + 1 !in Selected(ps)
    ensures forall k :: 0 <= k < |MountResults(Selected(ps), outcome)| ==>
              MountResults(Selected(ps), outcome)[k] == None ||
              MountResults(Selected(ps), outcome)[k].value.partition != i + 1
    ensures i + 1 !in FailedNumbers(ps, outcome)
    ensures Trimmed(i + 1) !in PlanEvents(ps, outcome)
  {
    SelectedMembers(ps, i + 1);
    MountSlots(Selected(ps), outcome);
    FailedNumbersMembers(ps, outcome, i + 1);
    TrimmedIff(ps, outcome, i + 1);
  }

  /** A mounted partition is never discarded; a failed one is never trimmed. */
  lemma DiscardOnlyOnFailure(ps: seq<Partition>, outcome: nat -> MountOutcome, n: nat)
    ensures n in FailedNumbers(ps, outcome) ==> Trimmed(n) !in PlanEvents(ps, outcome)
    ensures outcome(n) != MountFailed ==> n !in FailedNumbers(ps, outcome)
  {
    FailedNumbersMembers(ps, outcome, n);
    TrimmedIff(ps, outcome, n);
  }

  /** Both partitions of a two-entry table of Linux partitions are selected. */
  lemma SelectedBoth(first: Partition, second: Partition)
    requires IsLinux(first) && IsLinux(second)
    ensures Selected([first, second]) == [1, 2]
  {
    assert [first, second][..1] == [first];
    assert [first][..0] == [];
    assert Selected([first]) == [1];
  }

  /** Of partitions 1 and 2, where 1 mounts without trim and 2 fails, only 2
      has failed and none is trimmable. */
  lemma ScenarioFilters(outcome: nat -> MountOutcome)
    requires outcome(1) == Mounted(false) && outcome(2) == MountFailed
    ensures Filter([1, 2], Failed(outcome)) == [2]
    ensures Filter([1, 2], Trimmable(outcome)) == []
  {
  }

  /** Two Linux partitions: the first mounts without trim support, the second
      fails to mount. Only the second's extent is discarded, and nothing is trimmed. */
  lemma TwoPartitionScenario(first: Partition, second: Partition, outcome: nat -> MountOutcome)
    requires IsLinux(first) && IsLinux(second)
    requires outcome(1) == Mounted(false) && outcome(2) == MountFailed
    ensures PlanEvents([first, second], outcome) == [Discarded(second.offset, second.size)]
  {
    var ps := [first, second];
    SelectedBoth(first, second);
    ScenarioFilters(outcome);
    DiscardPerFailedPartition(ps, outcome);
    TrimPerTrimmablePartition(ps, outcome);
    var e := PlanEvents(ps, outcome);
    assert |e| == 1 && e[0] == Discarded(second.offset, second.size);
  }
}
