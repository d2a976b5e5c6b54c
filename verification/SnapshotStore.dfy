/** The snapshot directory as the program keeps it: saving, pruning and
    restoring in place. */
module SnapshotStore {
  import opened Platform
  import opened Snapshots

  class Directory {
    var snaps: seq<Snap>
    var keys: map<nat, Ram>
    var keyRam: Ram
    var keyName: nat
    var uses: nat

    constructor ()
      ensures State() == Store([], map[], [], 0, 0)
    {
      snaps, keys, keyRam, keyName, uses := [], map[], [], 0, 0;
    }

    ghost function State(): Store
      reads this
    {
      Store(snaps, keys, keyRam, keyName, uses)
    }

    /** The pages that differ from the last keyframe. */
    method Compare(ram: Ram) returns (diff: seq<Patch>)
      requires |keyRam| == |ram|
      ensures diff == Diff(ram, keyRam, 0)
    {
      diff := [];
      var p := 0;
      assert [] + Diff(ram, keyRam, 0) == Diff(ram, keyRam, 0);
      while p < |ram|
        invariant 0 <= p <= |ram|
        invariant diff + Diff(ram, keyRam, p) == Diff(ram, keyRam, 0)
      {
        if ram[p] != keyRam[p] {
          assert diff + ([Patch(p, ram[p])] + Diff(ram, keyRam, p + 1)) == diff + [Patch(p, ram[p])]
                + Diff(ram, keyRam, p + 1);
          diff := diff + [Patch(p, ram[p])];
        }
        p := p + 1;
      }
    }

    /** cosim_host_save_portable: the RAM as a keyframe and its differences. */
    method TakeSnapshot(cycle: nat, ram: Ram) returns (s: Snap)
      modifies this
      ensures (State(), s) == Take(old(State()), cycle, ram)
    {
      var diff: seq<Patch> := [];
      if |keyRam| == |ram| {
        diff := Compare(ram);
      }
      if |keyRam| != |ram| || |diff| > |ram| / 4 || uses >= MAX_USES {
        keys := keys[cycle := ram];
        keyRam, keyName, uses, diff := ram, cycle, 0, [];
      }
      uses := uses + 1;
      s := Snap(cycle, keyName, diff);
    }

    /** The oldest snapshots removed. */
    method DropOldest(keep: nat)
      modifies this`snaps
      ensures snaps == Kept(old(snaps), keep)
    {
      while keep > 0 && |snaps| > keep
        invariant Kept(snaps, keep) == Kept(old(snaps), keep)
        decreases |snaps|
      {
        assert snaps[1..][|snaps[1..]| - keep..] == snaps[|snaps| - keep..];
        snaps := snaps[1..];
      }
    }

    method KeysUsed() returns (used: set<nat>)
      ensures used == Used(snaps)
    {
      used := {};
      var i := 0;
      while i < |snaps|
        invariant 0 <= i <= |snaps|
        invariant used == Used(snaps[..i])
      {
        assert snaps[..i + 1] == snaps[..i] + [snaps[i]];
        used := used + {snaps[i].key};
        i := i + 1;
      }
      assert snaps[..i] == snaps;
    }

    /** The keyframes that no remaining snapshot uses removed. */
    method DropKeys(used: set<nat>)
      modifies this`keys
      ensures keys == map k | k in old(keys) && k in used :: old(keys)[k]
    {
      var names := keys.Keys;
      assert keys == map k | k in old(keys) && (k in names || k in used) :: old(keys)[k];
      while names != {}
        invariant names <= old(keys).Keys
        invariant keys == map k | k in old(keys) && (k in names || k in used) :: old(keys)[k]
        decreases names
      {
        var k :| k in names;
        names := names - {k};
        if k !in used {
          keys := keys - {k};
        }
      }
    }

    method Prune(keep: nat)
      modifies this`snaps, this`keys
      ensures snaps == Kept(old(snaps), keep)
      ensures keys == map k | k in old(keys) && k in Used(snaps) :: old(keys)[k]
    {
      DropOldest(keep);
      var used := KeysUsed();
      DropKeys(used);
    }

    /** save_snapshot. */
    method SaveSnapshot(cycle: nat, ram: Ram, keep: nat)
      modifies this
      ensures State() == Save(old(State()), cycle, ram, keep)
    {
      var s := TakeSnapshot(cycle, ram);
      snaps := Insert(snaps, s);
      Prune(keep);
    }

    /** cosim_host_load_portable: the keyframe, then the snapshot's own pages;
        fails when the keyframe is gone or a page is outside it. */
    method Restore(s: Snap) returns (ok: bool, ram: Ram)
      ensures ok <==> s.key in keys && forall k :: 0 <= k < |s.patches| ==> s.patches[k].page < |keys[s.key]|
      ensures ok ==> ram == Overlay(keys[s.key], s.patches)
    {
      if s.key !in keys {
        return false, [];
      }
      ram := keys[s.key];
      var i := 0;
      while i < |s.patches|
        invariant 0 <= i <= |s.patches| && |ram| == |keys[s.key]|
        invariant Overlay(ram, s.patches[i..]) == Overlay(keys[s.key], s.patches)
        invariant forall k :: 0 <= k < i ==> s.patches[k].page < |ram|
      {
        assert s.patches[i..][1..] == s.patches[i + 1..];
        if s.patches[i].page >= |ram| {
          return false, ram;
        }
        ram := ram[s.patches[i].page := s.patches[i].bytes];
        i := i + 1;
      }
      ok := true;
    }
  }
}
