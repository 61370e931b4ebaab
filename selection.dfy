/** Selection of the partitions the pipeline tries to mount and trim:
    every native Linux partition of the image, by its 1-based number. */
module Selection {

  /** A partition descriptor as delivered by the partition-table reader:
      its type code and its extent in bytes on the disk. */
  datatype Partition = Partition(ptype: int, offset: int, size: int)

  /** MBR type code of a native Linux partition (0x83). */
  const LinuxNative: int := 131

  predicate IsLinux(p: Partition) {
    p.ptype == LinuxNative
  }

  /** Strictly ascending, hence free of duplicates. */
  predicate Increasing(s: seq<nat>) {
    forall j, k :: 0 <= j < k < |s| ==> s[j] < s[k]
  }

  /** Every number in `ns` names a partition of `ps`. */
  predicate Numbers(ps: seq<Partition>, ns: seq<nat>) {
    forall k :: 0 <= k < |ns| ==> 1 <= ns[k] <= |ps|
  }

  /** Reference definition: the 1-based numbers of the Linux partitions of `ps`,
      in table order. */
  function Selected(ps: seq<Partition>): (r: seq<nat>)
    ensures Numbers(ps, r)
  {
    if ps == [] then []
    else Selected(ps[..|ps| - 1]) + (if IsLinux(ps[|ps| - 1]) then [|ps|] else [])
  }

  /** A number is selected exactly when it names a Linux partition. */
  lemma {:induction false} SelectedMembers(ps: seq<Partition>, n: nat)
    ensures n in Selected(ps) <==> 1 <= n <= |ps| && IsLinux(ps[n - 1])
  {
    if ps != [] {
      var init := ps[..|ps| - 1];
      var tail := if IsLinux(ps[|ps| - 1]) then [|ps|] else [];
      SelectedMembers(init, n);
      assert Selected(ps) == Selected(init) + tail;
      assert n in Selected(ps) <==> n in Selected(init) || n in tail;
      if 1 <= n <= |init| {
        assert init[n - 1] == ps[n - 1];
      }
    }
  }

  /** The selected numbers come out in ascending order, each once. */
  lemma {:induction false} SelectedIncreasing(ps: seq<Partition>)
    ensures Increasing(Selected(ps))
  {
    if ps != [] {
      var init := ps[..|ps| - 1];
      SelectedIncreasing(init);
      var s := Selected(init);
      assert forall k :: 0 <= k < |s| ==> s[k] < |ps|;
    }
  }

  /** The selection loop: walks the partition table and records, for each
      Linux partition, its number in `numbers` and its descriptor under that
      number in `byNumber`. */
  method SelectPartitions(partitions: seq<Partition>)
    returns (numbers: seq<nat>, byNumber: map<nat, Partition>)
    ensures numbers == Selected(partitions)
    ensures forall n :: n in byNumber <==> n in numbers
    ensures forall n :: n in byNumber ==> 1 <= n <= |partitions| && byNumber[n] == partitions[n - 1]
  {
    numbers, byNumber := [], map[];
    var i := 0;
    while i < |partitions|
      invariant 0 <= i <= |partitions|
      invariant numbers == Selected(partitions[..i])
      invariant forall n :: n in byNumber <==> n in numbers
      invariant forall n :: n in byNumber ==> 1 <= n <= i && byNumber[n] == partitions[n - 1]
    {
      assert partitions[..i + 1][..i] == partitions[..i];
      if partitions[i].ptype == LinuxNative {
        numbers := numbers + [i + 1];
        byNumber := byNumber[i + 1 := partitions[i]];
      }
      i := i + 1;
    }
    assert partitions[..i] == partitions;
  }
}
