/** Saves at any cycle, as after a restart from an older snapshot: exactly
    when they keep every snapshot restorable. */
module SnapshotSaves {
  import opened Platform
  import opened Snapshots

  // ---- The directory ----

  /** Sorted by name, and no name twice. */
  ghost predicate Named(snaps: seq<Snap>) {
    forall i, j :: 0 <= i < j < |snaps| ==> Sorted(snaps[i].cycle, snaps[j].cycle)
  }

  /** How many snapshots sort after a cycle's name. */
  function After(snaps: seq<Snap>, cycle: nat): (n: nat)
    ensures n <= |snaps|
  {
    if snaps == [] then 0 else (if Sorted(cycle, snaps[0].cycle) then 1 else 0) + After(snaps[1..], cycle)
  }

  lemma NamedTail(snaps: seq<Snap>)
    requires Named(snaps) && snaps != []
    ensures Named(snaps[1..])
    ensures forall k :: 0 <= k < |snaps| - 1 ==> Sorted(snaps[0].cycle, snaps[1..][k].cycle)
  {
    hide Sorted;
  }

  lemma {:induction false} AllAfter(snaps: seq<Snap>, cycle: nat)
    requires forall k :: 0 <= k < |snaps| ==> Sorted(cycle, snaps[k].cycle)
    ensures After(snaps, cycle) == |snaps|
  {
    hide Sorted;
    if snaps != [] {
      AllAfter(snaps[1..], cycle);
    }
  }

  /** The new snapshot goes between those before and those after it; one of
      its own name is replaced. */
  ghost predicate Between(snaps: seq<Snap>, s: Snap, i: nat, j: nat) {
    && i <= j <= i + 1 && j <= |snaps| && (j == i + 1 ==> snaps[i].cycle == s.cycle)
    && (forall k :: 0 <= k < i ==> Sorted(snaps[k].cycle, s.cycle))
    && (forall k :: j <= k < |snaps| ==> Sorted(s.cycle, snaps[k].cycle))
  }

  lemma {:induction false} InsertBetween(snaps: seq<Snap>, s: Snap) returns (i: nat, j: nat)
    requires Named(snaps)
    ensures Between(snaps, s, i, j)
    ensures Insert(snaps, s) == snaps[..i] + [s] + snaps[j..]
    ensures After(snaps, s.cycle) == |snaps| - j
  {
    hide Sorted;
    if snaps == [] {
      i, j := 0, 0;
    } else if snaps[0].cycle == s.cycle {
      i, j := 0, 1;
      NamedTail(snaps);
      SortedOrder(s.cycle, s.cycle);
      AllAfter(snaps[1..], s.cycle);
      assert snaps[..0] == [];
    } else if Sorted(s.cycle, snaps[0].cycle) {
      i, j := 0, 0;
      forall k | 0 <= k < |snaps|
        ensures Sorted(s.cycle, snaps[k].cycle)
      {
        if k > 0 {
          SortedTrans(s.cycle, snaps[0].cycle, snaps[k].cycle);
        }
      }
      AllAfter(snaps, s.cycle);
      assert snaps[..0] == [] && snaps[0..] == snaps;
    } else {
      NamedTail(snaps);
      var i', j' := InsertBetween(snaps[1..], s);
      i, j := i' + 1, j' + 1;
      BetweenNext(snaps, s, i', j');
    }
  }

  lemma BetweenNext(snaps: seq<Snap>, s: Snap, i: nat, j: nat)
    requires snaps != [] && Between(snaps[1..], s, i, j)
    requires snaps[0].cycle != s.cycle && !Sorted(s.cycle, snaps[0].cycle)
    ensures Between(snaps, s, i + 1, j + 1)
    ensures [snaps[0]] + (snaps[1..][..i] + [s] + snaps[1..][j..]) == snaps[..i + 1] + [s] + snaps[j + 1..]
  {
    hide Sorted;
    SortedOrder(s.cycle, snaps[0].cycle);
    assert forall k :: 0 < k < |snaps| ==> snaps[k] == snaps[1..][k - 1];
    assert snaps[..i + 1] == [snaps[0]] + snaps[1..][..i];
  }

  lemma InsertNamed(snaps: seq<Snap>, s: Snap)
    requires Named(snaps)
    ensures Named(Insert(snaps, s))
  {
    hide Sorted, Insert;
    var i, j := InsertBetween(snaps, s);
    var all := Insert(snaps, s);
    forall k, l | 0 <= k < l < |all|
      ensures Sorted(all[k].cycle, all[l].cycle)
    {
      if k < i < l {
        SortedTrans(all[k].cycle, s.cycle, all[l].cycle);
      }
    }
  }

  lemma KeptParts(p: seq<Snap>, s: Snap, q: seq<Snap>, keep: nat)
    ensures var kept := Kept(p + [s] + q, keep);
            && (keep == 0 || |q| < keep ==> s in kept)
            && (keep > 0 && |q| >= keep ==> kept == q[|q| - keep..])
            && (forall x :: x in kept ==> x in p || x == s || x in q)
  {
    var all := p + [s] + q;
    var kept := Kept(all, keep);
    if keep == 0 || |q| < keep {
      assert kept[|kept| - |q| - 1] == s;
    } else {
      assert kept == q[|q| - keep..];
    }
  }

  /** The others have other names. */
  lemma OtherNames(snaps: seq<Snap>, s: Snap, i: nat, j: nat)
    requires Between(snaps, s, i, j)
    ensures forall x :: x in snaps[..i] || x in snaps[j..] ==> x in snaps && x.cycle != s.cycle
  {
    hide Sorted;
    SortedOrder(s.cycle, s.cycle);
    forall x | x in snaps[..i]
      ensures x in snaps && x.cycle != s.cycle
    {
      var k :| 0 <= k < i && snaps[..i][k] == x;
    }
    forall x | x in snaps[j..]
      ensures x in snaps && x.cycle != s.cycle
    {
      var k :| 0 <= k < |snaps| - j && snaps[j..][k] == x;
      assert snaps[j + k] == x;
    }
  }

  lemma KeptTail(snaps: seq<Snap>, j: nat, keep: nat)
    requires j <= |snaps| && 0 < keep <= |snaps| - j
    ensures Kept(snaps, keep) == snaps[j..][|snaps[j..]| - keep..]
  {
  }

  /** A new snapshot stays if and only if fewer than keep sort after it; if
      not, the directory is what it would be without it. */
  lemma NewIsKeptIff(snaps: seq<Snap>, s: Snap, keep: nat)
    requires Named(snaps)
    ensures s in Kept(Insert(snaps, s), keep) <==> keep == 0 || After(snaps, s.cycle) < keep
    ensures s !in Kept(Insert(snaps, s), keep) ==> Kept(Insert(snaps, s), keep) == Kept(snaps, keep)
    ensures forall x :: x in Kept(Insert(snaps, s), keep) && x != s ==> x in snaps && x.cycle != s.cycle
  {
    hide Sorted, Insert, After, Named, Between, Kept;
    var i, j := InsertBetween(snaps, s);
    InBounds(snaps, s, i, j);
    OtherNames(snaps, s, i, j);
    KeptParts(snaps[..i], s, snaps[j..], keep);
    if keep > 0 && |snaps| - j >= keep {
      KeptTail(snaps, j, keep);
    }
  }

  lemma InBounds(snaps: seq<Snap>, s: Snap, i: nat, j: nat)
    requires Between(snaps, s, i, j)
    ensures i <= j <= |snaps|
  {
  }

  // ---- Which of the others stay ----

  lemma {:induction false} AfterAt(snaps: seq<Snap>, m: nat)
    requires Named(snaps) && m < |snaps|
    ensures After(snaps, snaps[m].cycle) == |snaps| - 1 - m
    decreases m
  {
    hide Sorted;
    NamedTail(snaps);
    if m == 0 {
      SortedOrder(snaps[0].cycle, snaps[0].cycle);
      AllAfter(snaps[1..], snaps[0].cycle);
    } else {
      SortedOrder(snaps[0].cycle, snaps[m].cycle);
      AfterAt(snaps[1..], m - 1);
    }
  }

  predicate HasName(snaps: seq<Snap>, cycle: nat) {
    exists x :: x in snaps && x.cycle == cycle
  }

  /** How many names sort after a cycle's once a new one is put in. */
  function AfterWith(snaps: seq<Snap>, added: nat, cycle: nat): nat {
    After(snaps, cycle) + (if Sorted(cycle, added) && !HasName(snaps, added) then 1 else 0)
  }

  lemma {:induction false} AfterInsert(snaps: seq<Snap>, s: Snap, cycle: nat)
    requires Named(snaps)
    ensures After(Insert(snaps, s), cycle) == AfterWith(snaps, s.cycle, cycle)
  {
    hide Sorted, Named;
    if snaps == [] {
      assert After([s], cycle) == (if Sorted(cycle, s.cycle) then 1 else 0) + After([s][1..], cycle);
    } else if snaps[0].cycle == s.cycle {
      assert HasName(snaps, s.cycle);
      assert ([s] + snaps[1..])[1..] == snaps[1..];
    } else if Sorted(s.cycle, snaps[0].cycle) {
      NoSuchName(snaps, s);
      assert ([s] + snaps)[1..] == snaps;
    } else {
      NamedTail(snaps);
      AfterInsert(snaps[1..], s, cycle);
      assert ([snaps[0]] + Insert(snaps[1..], s))[1..] == Insert(snaps[1..], s);
      TailNames(snaps, s.cycle);
    }
  }

  lemma TailNames(snaps: seq<Snap>, cycle: nat)
    requires snaps != [] && snaps[0].cycle != cycle
    ensures HasName(snaps, cycle) <==> HasName(snaps[1..], cycle)
  {
    if HasName(snaps, cycle) {
      var x :| x in snaps && x.cycle == cycle;
      assert x in snaps[1..];
    }
  }

  lemma NoSuchName(snaps: seq<Snap>, s: Snap)
    requires Named(snaps) && snaps != [] && snaps[0].cycle != s.cycle && Sorted(s.cycle, snaps[0].cycle)
    ensures !HasName(snaps, s.cycle)
  {
    hide Sorted;
    SortedOrder(s.cycle, snaps[0].cycle);
  }

  lemma KeptAt(all: seq<Snap>, m: nat, keep: nat)
    requires Named(all) && m < |all|
    ensures all[m] in Kept(all, keep) <==> keep == 0 || |all| - 1 - m < keep
  {
    hide Sorted;
    var kept := Kept(all, keep);
    var n := |all| - |kept|;
    if m >= n {
      assert kept[m - n] == all[m];
    } else if all[m] in kept {
      var l :| 0 <= l < |kept| && kept[l] == all[m];
      assert kept[l] == all[n + l];
      SortedOrder(all[m].cycle, all[m].cycle);
    }
  }

  /** One already there, of another name, stays if and only if fewer than keep
      sort after it with the new one put in. */
  lemma OldIsKeptIff(snaps: seq<Snap>, s: Snap, keep: nat, x: Snap)
    requires Named(snaps) && x in snaps && x.cycle != s.cycle
    ensures x in Kept(Insert(snaps, s), keep) <==> keep == 0 || AfterWith(snaps, s.cycle, x.cycle) < keep
  {
    hide Sorted, Insert, After, Named, Kept;
    var all := Insert(snaps, s);
    InsertNamed(snaps, s);
    StillIn(snaps, s, x);
    var m :| 0 <= m < |all| && all[m] == x;
    AfterAt(all, m);
    AfterInsert(snaps, s, x.cycle);
    KeptAt(all, m, keep);
  }

  lemma {:induction false} StillIn(snaps: seq<Snap>, s: Snap, x: Snap)
    requires x in snaps && x.cycle != s.cycle
    ensures x in Insert(snaps, s)
  {
    hide Sorted;
    if snaps[0].cycle != s.cycle && !Sorted(s.cycle, snaps[0].cycle) && x != snaps[0] {
      StillIn(snaps[1..], s, x);
    }
  }

  // ---- What one save keeps ----

  /** A snapshot that rebuilds the RAM of its save. */
  ghost predicate Restores(s: Snap, keys: map<nat, Ram>, rams: map<nat, Ram>) {
    s.cycle in rams && s.key in keys && Overlay(keys[s.key], s.patches) == rams[s.cycle]
  }

  ghost predicate AllRestore(snaps: seq<Snap>, keys: map<nat, Ram>, rams: map<nat, Ram>) {
    forall s :: s in snaps ==> Restores(s, keys, rams)
  }

  /** The save makes a keyframe, of its own cycle's name. */
  predicate MakesKey(st: Store, ram: Ram) {
    |st.keyRam| != |ram| || |Diff(ram, st.keyRam, 0)| > |ram| / 4 || st.uses >= MAX_USES
  }

  predicate StaysNew(st: Store, cycle: nat, keep: nat) {
    keep == 0 || After(st.snaps, cycle) < keep
  }

  predicate Covers(patches: seq<Patch>, page: nat) {
    exists x :: x in patches && x.page == page
  }

  /** The two are the same but for pages that are patched. */
  ghost predicate SameBut(a: Ram, b: Ram, patches: seq<Patch>) {
    |a| == |b| && forall p :: 0 <= p < |a| && !Covers(patches, p) ==> a[p] == b[p]
  }

  /** Patches hide exactly the pages they have. */
  lemma {:induction false} OverlaySameIff(a: Ram, b: Ram, patches: seq<Patch>)
    ensures Overlay(a, patches) == Overlay(b, patches) <==> SameBut(a, b, patches)
    decreases patches
  {
    if patches == [] {
      assert forall p: nat :: !Covers(patches, p);
    } else if |a| == |b| {
      var x, rest := patches[0], patches[1..];
      var a' := if x.page < |a| then a[x.page := x.bytes] else a;
      var b' := if x.page < |b| then b[x.page := x.bytes] else b;
      OverlaySameIff(a', b', rest);
      assert forall p: nat :: Covers(patches, p) <==> x.page == p || Covers(rest, p) by {
        assert patches == [x] + rest;
      }
    }
  }

  /** If the new snapshot stays and leans on the last keyframe, that one is
      there and, where the snapshot has no page of its own, unchanged. */
  ghost predicate NewRestores(st: Store, cycle: nat, ram: Ram, keep: nat) {
    StaysNew(st, cycle, keep) && !MakesKey(st, ram) ==>
      st.keyName in st.keys && SameBut(st.keys[st.keyName], st.keyRam, Diff(ram, st.keyRam, 0))
  }

  /** If the save makes a keyframe and one of its name is there, the two are
      the same wherever a snapshot that stays and leans on it has no page of
      its own. */
  ghost predicate OldRestore(st: Store, cycle: nat, ram: Ram, keep: nat) {
    MakesKey(st, ram) ==>
      forall x :: x in st.snaps && x.cycle != cycle && x.key == cycle
                  && (keep == 0 || AfterWith(st.snaps, cycle, x.cycle) < keep) ==>
        cycle in st.keys && SameBut(ram, st.keys[cycle], x.patches)
  }

  /** What a save does, in terms of what it takes. */
  lemma SaveParts(st: Store, cycle: nat, ram: Ram, keep: nat)
    requires Named(st.snaps)
    ensures var s, r := Take(st, cycle, ram).1, Save(st, cycle, ram, keep);
            && s == (if MakesKey(st, ram) then Snap(cycle, cycle, [])
                     else Snap(cycle, st.keyName, Diff(ram, st.keyRam, 0)))
            && (s in r.snaps <==> StaysNew(st, cycle, keep))
            && (s !in r.snaps ==> r.snaps == Kept(st.snaps, keep))
            && (forall x :: x in r.snaps && x != s ==> x in st.snaps && x.cycle != cycle)
            && Named(r.snaps)
  {
    hide Sorted, Insert, After, Named, Diff;
    var s := Take(st, cycle, ram).1;
    NewIsKeptIff(st.snaps, s, keep);
    InsertNamed(st.snaps, s);
    KeptNamed(Insert(st.snaps, s), keep);
  }

  lemma KeptNamed(snaps: seq<Snap>, keep: nat)
    requires Named(snaps)
    ensures Named(Kept(snaps, keep))
  {
    hide Sorted;
  }

  /** Which keyframes there are after a save. */
  lemma SaveKeys(st: Store, cycle: nat, ram: Ram, keep: nat)
    ensures var r := Save(st, cycle, ram, keep);
            var keys := if MakesKey(st, ram) then st.keys[cycle := ram] else st.keys;
            && (forall k :: k in r.keys <==> k in keys && exists x :: x in r.snaps && x.key == k)
            && (forall k :: k in r.keys ==> r.keys[k] == keys[k])
            && r.keyName == (if MakesKey(st, ram) then cycle else st.keyName)
            && r.keyRam == (if MakesKey(st, ram) then ram else st.keyRam)
  {
    hide Sorted, Insert, Diff, Kept;
    SaveIs(st, cycle, ram, keep);
  }

  /** After a save at any cycle, keeping any number, every snapshot left is
      restorable if and only if the new one's keyframe is there unchanged and
      no keyframe is overwritten under another. */
  lemma SaveRestoresIff(st: Store, rams: map<nat, Ram>, cycle: nat, ram: Ram, keep: nat)
    requires Named(st.snaps) && AllRestore(st.snaps, st.keys, rams)
    ensures var r := Save(st, cycle, ram, keep);
            AllRestore(r.snaps, r.keys, rams[cycle := ram])
            <==> NewRestores(st, cycle, ram, keep) && OldRestore(st, cycle, ram, keep)
  {
    hide Save, Take, Named, StaysNew, Overlay, MakesKey, Diff, SameBut, AfterWith, Restores, NewRestores;
    var s, r := Take(st, cycle, ram).1, Save(st, cycle, ram, keep);
    var rams' := rams[cycle := ram];
    SaveParts(st, cycle, ram, keep);
    NewRestoresIff(st, rams, cycle, ram, keep);
    forall x | x in st.snaps && x.cycle != cycle
      ensures x in r.snaps <==> keep == 0 || AfterWith(st.snaps, cycle, x.cycle) < keep
      ensures x in r.snaps ==>
        (Restores(x, r.keys, rams')
         <==> (MakesKey(st, ram) && x.key == cycle ==> cycle in st.keys && SameBut(ram, st.keys[cycle], x.patches)))
    {
      OldRestoresIff(st, rams, cycle, ram, keep, x);
    }
  }

  lemma NewRestoresIff(st: Store, rams: map<nat, Ram>, cycle: nat, ram: Ram, keep: nat)
    requires Named(st.snaps)
    ensures var s, r := Take(st, cycle, ram).1, Save(st, cycle, ram, keep);
            if s in r.snaps then Restores(s, r.keys, rams[cycle := ram]) <==> NewRestores(st, cycle, ram, keep)
            else NewRestores(st, cycle, ram, keep)
  {
    hide Save, Take, Named, StaysNew, Overlay, MakesKey, Diff, SameBut;
    SaveParts(st, cycle, ram, keep);
    SaveKeys(st, cycle, ram, keep);
    NoPatches(ram);
    if !MakesKey(st, ram) {
      LeaningIff(st, ram);
    }
  }

  lemma OldRestoresIff(st: Store, rams: map<nat, Ram>, cycle: nat, ram: Ram, keep: nat, x: Snap)
    requires Named(st.snaps) && x in st.snaps && x.cycle != cycle && Restores(x, st.keys, rams)
    ensures var r := Save(st, cycle, ram, keep);
            && (x in r.snaps <==> keep == 0 || AfterWith(st.snaps, cycle, x.cycle) < keep)
            && (x in r.snaps ==>
                  (Restores(x, r.keys, rams[cycle := ram])
                   <==> (MakesKey(st, ram) && x.key == cycle ==>
                           cycle in st.keys && SameBut(ram, st.keys[cycle], x.patches))))
  {
    hide Save, Take, Named, Overlay, MakesKey, Diff, SameBut, AfterWith, Kept, Insert, StaysNew;
    SaveParts(st, cycle, ram, keep);
    SaveKeys(st, cycle, ram, keep);
    SavedSnaps(st, cycle, ram, keep);
    OldIsKeptIff(st.snaps, Take(st, cycle, ram).1, keep, x);
    if x.key == cycle {
      OverlaySameIff(ram, st.keys[cycle], x.patches);
    }
  }

  lemma SavedSnaps(st: Store, cycle: nat, ram: Ram, keep: nat)
    ensures Save(st, cycle, ram, keep).snaps == Kept(Insert(st.snaps, Take(st, cycle, ram).1), keep)
  {
  }

  lemma LeaningIff(st: Store, ram: Ram)
    requires !MakesKey(st, ram)
    ensures st.keyName in st.keys ==>
      (Overlay(st.keys[st.keyName], Diff(ram, st.keyRam, 0)) == ram
       <==> SameBut(st.keys[st.keyName], st.keyRam, Diff(ram, st.keyRam, 0)))
  {
    assert ram[..0] + st.keyRam[0..] == st.keyRam;
    OverlayOfDiff(ram, st.keyRam, 0, st.keyRam);
    if st.keyName in st.keys {
      OverlaySameIff(st.keys[st.keyName], st.keyRam, Diff(ram, st.keyRam, 0));
    }
  }

  lemma NoPatches(ram: Ram)
    ensures Overlay(ram, []) == ram
  {
  }

  /** What the program remembers of the last keyframe is so. */
  ghost predicate Remembers(st: Store) {
    st.keyRam != [] ==> st.keyName in st.keys && st.keys[st.keyName] == st.keyRam
  }

  /** The keyframe that the next save may lean on is there afterwards if and
      only if the new snapshot stays, fewer than keep sorting after it, or one
      of those that do stay leans on it, too. */
  lemma KeyframeStaysIff(st: Store, cycle: nat, ram: Ram, keep: nat)
    requires Named(st.snaps) && Remembers(st) && ram != []
    ensures var name := if MakesKey(st, ram) then cycle else st.keyName;
            var r := Save(st, cycle, ram, keep);
            && r.keyName == name
            && (name in r.keys <==> StaysNew(st, cycle, keep) || exists x :: x in Kept(st.snaps, keep) && x.key == name)
            && (name in r.keys ==> r.keys[name] == r.keyRam)
  {
    hide Save, Take, Named, StaysNew, Diff, Kept;
    var s, r := Take(st, cycle, ram).1, Save(st, cycle, ram, keep);
    SaveParts(st, cycle, ram, keep);
    SaveKeys(st, cycle, ram, keep);
    if s in r.snaps {
      assert s.key == r.keyName;
    }
  }

  // ---- Runs of saves at any cycles ----

  /** All is well: every snapshot restores, and the next save can lean on the
      last keyframe. */
  ghost predicate Good(st: Store, rams: map<nat, Ram>) {
    Named(st.snaps) && AllRestore(st.snaps, st.keys, rams) && Remembers(st)
  }

  /** What a save has to meet for that to remain so. */
  ghost predicate Careful(st: Store, s: Request, keep: nat) {
    && OldRestore(st, s.cycle, s.ram, keep)
    && (StaysNew(st, s.cycle, keep)
        || exists x :: x in Kept(st.snaps, keep) && x.key == if MakesKey(st, s.ram) then s.cycle else st.keyName)
  }

  lemma SaveIsGoodIff(st: Store, rams: map<nat, Ram>, s: Request, keep: nat)
    requires Good(st, rams) && s.ram != []
    ensures Good(Save(st, s.cycle, s.ram, keep), rams[s.cycle := s.ram]) <==> Careful(st, s, keep)
  {
    hide Save, Named, AllRestore, OldRestore, StaysNew, Kept, Diff, Overlay;
    var r := Save(st, s.cycle, s.ram, keep);
    SaveRestoresIff(st, rams, s.cycle, s.ram, keep);
    KeyframeStaysIff(st, s.cycle, s.ram, keep);
    SaveKeys(st, s.cycle, s.ram, keep);
    SaveParts(st, s.cycle, s.ram, keep);
    LastRebuilds(st, s.cycle, s.ram, keep);
  }

  /** A keyframe that is as remembered will do. */
  lemma LastRebuilds(st: Store, cycle: nat, ram: Ram, keep: nat)
    requires Remembers(st) && ram != []
    ensures NewRestores(st, cycle, ram, keep)
  {
  }

  /** Good after every save of a run. */
  ghost predicate GoodThroughout(st: Store, rams: map<nat, Ram>, saves: seq<Request>, keep: nat)
    decreases saves
  {
    Good(st, rams)
    && (saves != [] ==>
          var s := saves[0];
          GoodThroughout(Save(st, s.cycle, s.ram, keep), rams[s.cycle := s.ram], saves[1..], keep))
  }

  ghost predicate CarefulThroughout(st: Store, saves: seq<Request>, keep: nat)
    decreases saves
  {
    saves != [] ==>
      var s := saves[0];
      && Careful(st, s, keep)
      && CarefulThroughout(Save(st, s.cycle, s.ram, keep), saves[1..], keep)
  }

  /** Over any run of saves, at whatever cycles: all stays well if and only if
      every save meets the condition. */
  lemma {:induction false} EverySaveGoodIff(st: Store, rams: map<nat, Ram>, saves: seq<Request>, keep: nat)
    requires Good(st, rams) && forall s :: s in saves ==> s.ram != []
    ensures GoodThroughout(st, rams, saves, keep) <==> CarefulThroughout(st, saves, keep)
    decreases saves
  {
    hide Good, Careful, Save;
    if saves != [] {
      var s := saves[0];
      SaveIsGoodIff(st, rams, s, keep);
      if Careful(st, s, keep) {
        EverySaveGoodIff(Save(st, s.cycle, s.ram, keep), rams[s.cycle := s.ram], saves[1..], keep);
      }
    }
  }

  // ---- A keyframe overwritten ----

  const TEN: Snap := Snap(10, 10, [])
  const ELEVEN: Snap := Snap(11, 10, [])

  /** A new process, with the directory that an older one left. */
  function Restarted(a: Ram): Store {
    Store([TEN, ELEVEN], map[10 := a], [], 0, 0)
  }

  /** The new process does not know the last keyframe. It resumes at the cycle
      of the older snapshot and saves there: the keyframe of that name, which
      the later snapshot leans on, is replaced, and that snapshot now rebuilds
      the other RAM. Nothing is missing, so nothing is reported. */
  lemma KeyframeOverwritten(a: Ram, b: Ram)
    requires |a| == |b| == 1 && a != b
    ensures var r := Save(Restarted(a), 10, b, 0);
            && Good(Restarted(a), map[10 := a, 11 := a])
            && r.snaps == [TEN, ELEVEN] && r.keys == map[10 := b]
            && Overlay(r.keys[ELEVEN.key], ELEVEN.patches) == b != a
  {
    hide Sorted, Digits, Before, Save, Diff;
    TenFirst();
    NoPatches(a);
    NoPatches(b);
    OverwritingSave(a, b);
  }

  lemma TenFirst()
    ensures Sorted(10, 11)
  {
    PowerOfSixteen();
    NamesInOrder(10, 11, 16);
  }

  lemma OverwritingSave(a: Ram, b: Ram)
    requires |a| == |b| == 1
    ensures var r := Save(Restarted(a), 10, b, 0);
            r.snaps == [TEN, ELEVEN] && r.keys == map[10 := b]
  {
    hide Sorted, Diff, Save;
    var st, r := Restarted(a), Save(Restarted(a), 10, b, 0);
    assert Take(st, 10, b).1 == TEN;
    assert [TEN, ELEVEN][1..] == [ELEVEN];
    assert Insert([TEN, ELEVEN], TEN) == [TEN] + [ELEVEN] == [TEN, ELEVEN];
    SaveIs(st, 10, b, 0);
    assert r.snaps == [TEN, ELEVEN];
    SaveKeys(st, 10, b, 0);
    assert TEN in r.snaps && TEN.key == 10;
    assert st.keys[10 := b] == map[10 := b];
  }
}
