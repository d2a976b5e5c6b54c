/** The snapshot directory: each snapshot is a keyframe of the reference's RAM
    and the pages that differ from it, and old snapshots and keyframes are
    pruned after every save. */
module Snapshots {
  import opened Platform

  type Page = seq<Byte>
  type Ram = seq<Page>

  datatype Patch = Patch(page: nat, bytes: Page)

  /** A snapshot directory's entry, named by its cycle; its keyframe is named
      by the cycle that made it. */
  datatype Snap = Snap(cycle: nat, key: nat, patches: seq<Patch>)

  /** The directory, sorted by name, the keyframe files, and what the program
      remembers of the last keyframe: its RAM (none at first), name and uses. */
  datatype Store = Store(snaps: seq<Snap>, keys: map<nat, Ram>, keyRam: Ram, keyName: nat, uses: nat)

  const MAX_USES: nat := 32

  // ---- Names ----

  /** A cycle's digits, the last k of them and all before. */
  function Digits(n: nat, k: nat): (d: seq<nat>)
    ensures |d| >= k && |d| > 0 && (n >= 10 ==> |d| > 1)
    decreases n, k
  {
    if n < 10 && k <= 1 then [n] else Digits(n / 10, if k > 0 then k - 1 else 0) + [n % 10]
  }

  /** The order a sort puts names in: the first differing digit decides, and a
      name comes before the longer names it begins. */
  predicate Before(a: seq<nat>, b: seq<nat>) {
    if a == [] then b != []
    else if b == [] then false
    else a[0] < b[0] || (a[0] == b[0] && Before(a[1..], b[1..]))
  }

  predicate Sorted(a: nat, b: nat) {
    Before(Digits(a, 16), Digits(b, 16))
  }

  function Power(k: nat): (p: nat)
    ensures p > 0
  {
    if k == 0 then 1 else 10 * Power(k - 1)
  }

  lemma {:induction false} DigitsLength(n: nat, k: nat)
    requires k > 0 && n < Power(k)
    ensures |Digits(n, k)| == k
    decreases k
  {
    if k > 1 {
      assert n / 10 < Power(k - 1);
      DigitsLength(n / 10, k - 1);
    }
  }

  lemma {:induction false} BeforeSnoc(a: seq<nat>, b: seq<nat>, x: nat, y: nat)
    requires |a| == |b|
    ensures Before(a + [x], b + [y]) <==> Before(a, b) || (a == b && x < y)
  {
    if a == [] {
      assert [] + [x] == [x] && [] + [y] == [y];
      assert Before([x][1..], [y][1..]) == false;
    } else {
      assert (a + [x])[1..] == a[1..] + [x] && (b + [y])[1..] == b[1..] + [y];
      BeforeSnoc(a[1..], b[1..], x, y);
      assert a == [a[0]] + a[1..] && b == [b[0]] + b[1..];
    }
  }

  lemma {:induction false} SameDigits(a: nat, b: nat, k: nat)
    requires k > 0 && a < Power(k) && b < Power(k)
    ensures Digits(a, k) == Digits(b, k) <==> a == b
    decreases k
  {
    if k > 1 {
      assert a / 10 < Power(k - 1) && b / 10 < Power(k - 1);
      SameDigits(a / 10, b / 10, k - 1);
      DigitsLength(a / 10, k - 1);
      DigitsLength(b / 10, k - 1);
      var x, y := Digits(a / 10, k - 1), Digits(b / 10, k - 1);
      assert (x + [a % 10])[..k - 1] == x && (y + [b % 10])[..k - 1] == y;
      assert (x + [a % 10])[k - 1] == a % 10 && (y + [b % 10])[k - 1] == b % 10;
    }
  }

  /** Below ten to the sixteen, names sort as their cycles do. */
  lemma {:induction false} NamesInOrder(a: nat, b: nat, k: nat)
    requires k > 0 && a < Power(k) && b < Power(k)
    ensures Before(Digits(a, k), Digits(b, k)) <==> a < b
    decreases k
  {
    if k == 1 {
      assert Digits(a, 1) == [a] && Digits(b, 1) == [b];
      assert Before([a][1..], [b][1..]) == false;
    } else {
      assert a / 10 < Power(k - 1) && b / 10 < Power(k - 1);
      NamesInOrder(a / 10, b / 10, k - 1);
      SameDigits(a / 10, b / 10, k - 1);
      DigitsLength(a / 10, k - 1);
      DigitsLength(b / 10, k - 1);
      BeforeSnoc(Digits(a / 10, k - 1), Digits(b / 10, k - 1), a % 10, b % 10);
    }
  }

  lemma PowerOfSixteen()
    ensures Power(16) == 10000000000000000
  {
    assert Power(4) == 10000;
    assert Power(8) == 100000000;
    assert Power(12) == 1000000000000;
  }

  /** A number with all of its digits has no zeros put in front. */
  lemma {:induction false} WideDigits(n: nat, k: nat, w: nat)
    requires k > 0 && Power(k - 1) <= n && w <= k
    ensures Digits(n, w) == Digits(n, k)
    decreases k
  {
    if k > 1 {
      assert n >= 10 && Power(k - 2) <= n / 10;
      WideDigits(n / 10, k - 1, if w > 0 then w - 1 else 0);
    } else {
      assert n >= 10 || Digits(n, w) == [n];
      if n >= 10 {
        assert Digits(n, 0) == Digits(n, 1);
      }
    }
  }

  /** A number without its last k digits. */
  function Without(n: nat, k: nat): nat
    decreases k
  {
    if k == 0 then n else Without(n / 10, k - 1)
  }

  /** Without its last digits a name is a shorter number's. */
  lemma {:induction false} DigitsPrefix(n: nat, k: nat, w: nat)
    requires 0 < w <= k && n < Power(k)
    ensures |Digits(n, k)| == k && Digits(n, k)[..w] == Digits(Without(n, k - w), w) && Without(n, k - w) < Power(w)
    decreases k
  {
    DigitsLength(n, k);
    if w < k {
      assert n / 10 < Power(k - 1);
      DigitsPrefix(n / 10, k - 1, w);
      assert Digits(n, k) == Digits(n / 10, k - 1) + [n % 10];
    } else {
      assert Digits(n, k)[..k] == Digits(n, k);
    }
  }

  lemma {:induction false} BeforeLonger(a: seq<nat>, b: seq<nat>)
    requires |a| < |b|
    ensures Before(a, b) <==> Before(a, b[..|a|]) || a == b[..|a|]
  {
    if a == [] {
      assert b[..0] == [];
    } else {
      assert b[1..][..|a| - 1] == b[..|a|][1..];
      BeforeLonger(a[1..], b[1..]);
      assert a == [a[0]] + a[1..] && b[..|a|] == [b[0]] + b[..|a|][1..];
    }
  }

  lemma {:induction false} BeforeSelf(a: seq<nat>)
    ensures !Before(a, a)
  {
    if a != [] {
      BeforeSelf(a[1..]);
    }
  }

  lemma {:induction false} BeforeTrans(a: seq<nat>, b: seq<nat>, c: seq<nat>)
    requires Before(a, b) && Before(b, c)
    ensures Before(a, c)
  {
    if a != [] && b != [] && c != [] && a[0] == b[0] == c[0] {
      BeforeTrans(a[1..], b[1..], c[1..]);
    }
  }

  lemma {:induction false} BeforeTotal(a: seq<nat>, b: seq<nat>)
    ensures Before(a, b) || a == b || Before(b, a)
  {
    if a != [] && b != [] {
      BeforeTotal(a[1..], b[1..]);
      assert a == [a[0]] + a[1..] && b == [b[0]] + b[1..];
    }
  }

  function Number(d: seq<nat>): nat {
    if d == [] then 0 else 10 * Number(d[..|d| - 1]) + d[|d| - 1]
  }

  /** A name tells its cycle. */
  lemma {:induction false} NumberOfDigits(n: nat, k: nat)
    ensures Number(Digits(n, k)) == n
    decreases n, k
  {
    if n < 10 && k <= 1 {
      assert [n][..0] == [];
    } else {
      var d := Digits(n / 10, if k > 0 then k - 1 else 0);
      NumberOfDigits(n / 10, if k > 0 then k - 1 else 0);
      assert (d + [n % 10])[..|d + [n % 10]| - 1] == d;
    }
  }

  lemma SortedOrder(a: nat, b: nat)
    ensures !Sorted(a, a)
    ensures a != b ==> Sorted(a, b) || Sorted(b, a)
    ensures !(Sorted(a, b) && Sorted(b, a))
  {
    BeforeSelf(Digits(a, 16));
    NumberOfDigits(a, 16);
    NumberOfDigits(b, 16);
    BeforeTotal(Digits(a, 16), Digits(b, 16));
    if Sorted(a, b) && Sorted(b, a) {
      BeforeTrans(Digits(a, 16), Digits(b, 16), Digits(a, 16));
    }
  }

  lemma SortedTrans(a: nat, b: nat, c: nat)
    requires Sorted(a, b) && Sorted(b, c)
    ensures Sorted(a, c)
  {
    BeforeTrans(Digits(a, 16), Digits(b, 16), Digits(c, 16));
  }

  /** Names of sixteen digits or of more, w for a and v for b, sort as the
      cycles do if and only if b's first w digits are no less than a. */
  lemma LongerNamesIff(a: nat, b: nat, w: nat, v: nat)
    requires 16 <= w < v && a < Power(w) && (w > 16 ==> Power(w - 1) <= a) && Power(v - 1) <= b < Power(v)
    ensures a < b
    ensures Sorted(a, b) <==> a <= Without(b, v - w)
  {
    hide Digits, Before, Power;
    var q := Without(b, v - w);
    if w > 16 {
      WideDigits(a, w, 16);
    }
    WideDigits(b, v, 16);
    DigitsLength(a, w);
    DigitsPrefix(b, v, w);
    BeforeLonger(Digits(a, w), Digits(b, v));
    NamesInOrder(a, q, w);
    SameDigits(a, q, w);
    PowerGrows(w, v - 1);
  }

  lemma {:induction false} PowerGrows(a: nat, b: nat)
    requires a <= b
    ensures Power(a) <= Power(b)
  {
    if a < b {
      PowerGrows(a, b - 1);
    }
  }

  /** So the first 17-digit cycle sorts before the last 16-digit one. */
  lemma NamesOutOfOrder()
    ensures Sorted(10000000000000000, 9999999999999999)
  {
    PowerOfSixteen();
    assert Power(17) == 10 * Power(16) && Power(1) == 10;
    hide Sorted, Power;
    LongerNamesIff(9999999999999999, 10000000000000000, 16, 17);
    SortedOrder(9999999999999999, 10000000000000000);
  }

  // ---- Saving ----

  /** The pages from p on that differ from the keyframe's. */
  function Diff(ram: Ram, key: Ram, p: nat): (d: seq<Patch>)
    requires |key| == |ram|
    decreases |ram| - p
  {
    if p >= |ram| then []
    else if ram[p] != key[p] then [Patch(p, ram[p])] + Diff(ram, key, p + 1)
    else Diff(ram, key, p + 1)
  }

  /** The store with a snapshot of ram taken, and the snapshot. A keyframe is
      made when there is none of this size, when too much differs, or when
      the last one has been used often enough. */
  function Take(st: Store, cycle: nat, ram: Ram): (r: (Store, Snap)) {
    var diff := if |st.keyRam| == |ram| then Diff(ram, st.keyRam, 0) else [];
    if |st.keyRam| != |ram| || |diff| > |ram| / 4 || st.uses >= MAX_USES then
      (st.(keys := st.keys[cycle := ram], keyRam := ram, keyName := cycle, uses := 1), Snap(cycle, cycle, []))
    else (st.(uses := st.uses + 1), Snap(cycle, st.keyName, diff))
  }

  /** The directory with a snapshot put in; one of the same name is replaced. */
  function Insert(snaps: seq<Snap>, s: Snap): (r: seq<Snap>)
    ensures |r| > 0
  {
    if snaps == [] then [s]
    else if snaps[0].cycle == s.cycle then [s] + snaps[1..]
    else if Sorted(s.cycle, snaps[0].cycle) then [s] + snaps
    else [snaps[0]] + Insert(snaps[1..], s)
  }

  /** The last keep of them; all, when keep is 0. */
  function Kept(snaps: seq<Snap>, keep: nat): seq<Snap> {
    if keep > 0 && |snaps| > keep then snaps[|snaps| - keep..] else snaps
  }

  function Used(snaps: seq<Snap>): set<nat> {
    set s | s in snaps :: s.key
  }

  function Save(st: Store, cycle: nat, ram: Ram, keep: nat): Store {
    var taken := Take(st, cycle, ram);
    var snaps := Kept(Insert(st.snaps, taken.1), keep);
    var used := Used(snaps);
    taken.0.(snaps := snaps, keys := map k | k in taken.0.keys && k in used :: taken.0.keys[k])
  }

  /** The RAM a restore rebuilds. */
  function Overlay(ram: Ram, patches: seq<Patch>): (r: Ram)
    ensures |r| == |ram|
    decreases patches
  {
    if patches == [] then ram
    else Overlay(if patches[0].page < |ram| then ram[patches[0].page := patches[0].bytes] else ram, patches[1..])
  }

  // ---- What every save keeps ----

  /** How many snapshots lean on a keyframe. */
  function Leaning(snaps: seq<Snap>, key: nat): (n: nat)
    ensures n <= |snaps|
  {
    if snaps == [] then 0 else (if snaps[0].key == key then 1 else 0) + Leaning(snaps[1..], key)
  }

  /** A snapshot that rebuilds the RAM of its save from a keyframe that is
      there, with at most a quarter of the pages of its own. */
  predicate Whole(s: Snap, keys: map<nat, Ram>, rams: map<nat, Ram>) {
    && s.cycle in rams && s.key in keys
    && Overlay(keys[s.key], s.patches) == rams[s.cycle]
    && |s.patches| <= |rams[s.cycle]| / 4
  }

  ghost predicate Increasing(snaps: seq<Snap>) {
    forall i, j :: 0 <= i < j < |snaps| ==> snaps[i].cycle < snaps[j].cycle
  }

  /** A store all of whose snapshots are whole, before the cycle next. */
  ghost predicate Sound(st: Store, rams: map<nat, Ram>, next: nat) {
    && Increasing(st.snaps)
    && (forall s :: s in st.snaps ==> s.cycle < next && Whole(s, st.keys, rams))
    && (forall k :: k in st.keys ==> k < next)
    && (forall k :: Leaning(st.snaps, k) <= MAX_USES)
    && (st.keyRam != [] ==>
          && st.keyName in st.keys && st.keys[st.keyName] == st.keyRam
          && Leaning(st.snaps, st.keyName) <= st.uses <= MAX_USES)
  }

  lemma {:induction false} OverlayOfDiff(ram: Ram, key: Ram, p: nat, onto: Ram)
    requires |key| == |ram| == |onto| && p <= |ram|
    requires onto == ram[..p] + key[p..]
    ensures Overlay(onto, Diff(ram, key, p)) == ram
    decreases |ram| - p
  {
    if p == |ram| {
      assert onto == ram;
    } else {
      var next := ram[..p + 1] + key[p + 1..];
      assert next == onto[p := ram[p]];
      assert ram[p] == key[p] ==> next == onto;
      OverlayOfDiff(ram, key, p + 1, next);
    }
  }

  /** A name later than all is put last. */
  lemma {:induction false} InsertLast(snaps: seq<Snap>, s: Snap)
    requires forall x :: x in snaps ==> x.cycle < s.cycle
    requires s.cycle < 10000000000000000
    ensures Insert(snaps, s) == snaps + [s]
  {
    if snaps != [] {
      PowerOfSixteen();
      NamesInOrder(s.cycle, snaps[0].cycle, 16);
      InsertLast(snaps[1..], s);
      assert [snaps[0]] + (snaps[1..] + [s]) == snaps + [s];
    }
  }

  lemma {:induction false} LeaningSnoc(snaps: seq<Snap>, s: Snap, key: nat)
    ensures Leaning(snaps + [s], key) == Leaning(snaps, key) + (if s.key == key then 1 else 0)
  {
    if snaps == [] {
      assert [] + [s] == [s];
    } else {
      assert (snaps + [s])[1..] == snaps[1..] + [s];
      LeaningSnoc(snaps[1..], s, key);
    }
  }

  lemma {:induction false} LeaningDrop(snaps: seq<Snap>, n: nat, key: nat)
    requires n <= |snaps|
    ensures Leaning(snaps[n..], key) <= Leaning(snaps, key)
  {
    if n > 0 {
      assert snaps[n..] == snaps[1..][n - 1..];
      LeaningDrop(snaps[1..], n - 1, key);
    }
  }

  lemma {:induction false} NoneLeaning(snaps: seq<Snap>, key: nat)
    requires forall s :: s in snaps ==> s.key != key
    ensures Leaning(snaps, key) == 0
  {
    if snaps != [] {
      NoneLeaning(snaps[1..], key);
    }
  }

  /** Taking a snapshot leaves the others whole, and the new one is. */
  lemma TakeSound(st: Store, rams: map<nat, Ram>, cycle: nat, ram: Ram)
    requires Sound(st, rams, cycle) && ram != []
    ensures var t, rams' := Take(st, cycle, ram), rams[cycle := ram];
            && t.1.cycle == cycle && t.1.key == t.0.keyName && t.0.snaps == st.snaps
            && Whole(t.1, t.0.keys, rams')
            && (forall s :: s in st.snaps ==> Whole(s, t.0.keys, rams'))
            && (forall k :: k in t.0.keys ==> k <= cycle)
            && t.0.keyRam != [] && t.0.keyName in t.0.keys && t.0.keys[t.0.keyName] == t.0.keyRam
            && Leaning(st.snaps, t.0.keyName) + 1 <= t.0.uses <= MAX_USES
  {
    var t := Take(st, cycle, ram);
    if t.0.keyName == cycle && t.1.patches == [] && cycle !in st.keys {
      NoneLeaning(st.snaps, cycle);
    }
    if |st.keyRam| == |ram| {
      assert ram[..0] + st.keyRam[0..] == st.keyRam;
      OverlayOfDiff(ram, st.keyRam, 0, st.keyRam);
    }
  }

  lemma KeptLeaning(snaps: seq<Snap>, s: Snap, keep: nat, uses: nat)
    requires forall k :: Leaning(snaps, k) <= MAX_USES
    requires Leaning(snaps, s.key) + 1 <= uses <= MAX_USES
    ensures forall k :: Leaning(Kept(snaps + [s], keep), k) <= MAX_USES
    ensures Leaning(Kept(snaps + [s], keep), s.key) <= uses
  {
    var all := snaps + [s];
    var kept := Kept(all, keep);
    forall k
      ensures Leaning(kept, k) <= MAX_USES && (k == s.key ==> Leaning(kept, k) <= uses)
    {
      LeaningSnoc(snaps, s, k);
      assert all[0..] == all;
      LeaningDrop(all, |all| - |kept|, k);
    }
  }

  lemma KeptAre(snaps: seq<Snap>, s: Snap, keep: nat)
    requires Increasing(snaps) && forall x :: x in snaps ==> x.cycle < s.cycle
    ensures var kept := Kept(snaps + [s], keep);
            && Increasing(kept) && s.key in Used(kept)
            && (forall x :: x in kept ==> (x in snaps || x == s) && x.cycle <= s.cycle && x.key in Used(kept))
  {
    var kept := Kept(snaps + [s], keep);
    assert kept[|kept| - 1] == s;
  }

  /** A save at a later cycle keeps the store sound. */
  lemma SaveSound(st: Store, rams: map<nat, Ram>, cycle: nat, ram: Ram, keep: nat)
    requires Sound(st, rams, cycle) && ram != [] && cycle < 10000000000000000
    ensures var r := Save(st, cycle, ram, keep);
            && Sound(r, rams[cycle := ram], cycle + 1)
            && r.snaps == Kept(st.snaps + [Take(st, cycle, ram).1], keep)
  {
    hide Take, Kept, Used, Insert, Save, Overlay, Leaning, Increasing, Whole;
    TakeSound(st, rams, cycle, ram);
    var t := Take(st, cycle, ram);
    InsertLast(st.snaps, t.1);
    KeptAre(st.snaps, t.1, keep);
    KeptLeaning(st.snaps, t.1, keep, t.0.uses);
    SaveIs(st, cycle, ram, keep);
    var r, rams' := Save(st, cycle, ram, keep), rams[cycle := ram];
    forall s | s in r.snaps
      ensures s.cycle < cycle + 1 && Whole(s, r.keys, rams')
    {
      StillWhole(s, t.0.keys, r.keys, rams');
    }
  }

  lemma SaveIs(st: Store, cycle: nat, ram: Ram, keep: nat)
    ensures var t, r := Take(st, cycle, ram), Save(st, cycle, ram, keep);
            && r == t.0.(snaps := Kept(Insert(st.snaps, t.1), keep), keys := r.keys)
            && (forall k :: k in r.keys <==> k in t.0.keys && k in Used(r.snaps))
            && (forall k :: k in r.keys ==> r.keys[k] == t.0.keys[k])
  {
    hide Take, Insert, Kept, Used;
  }

  lemma StillWhole(s: Snap, keys: map<nat, Ram>, kept: map<nat, Ram>, rams: map<nat, Ram>)
    requires Whole(s, keys, rams) && s.key in keys ==> s.key in kept && kept[s.key] == keys[s.key]
    ensures Whole(s, keys, rams) ==> Whole(s, kept, rams)
  {
  }

  // ---- Whole runs ----

  datatype Request = Request(cycle: nat, ram: Ram)

  function SaveAll(st: Store, saves: seq<Request>, keep: nat): Store
    decreases saves
  {
    if saves == [] then st else SaveAll(Save(st, saves[0].cycle, saves[0].ram, keep), saves[1..], keep)
  }

  function Recorded(rams: map<nat, Ram>, saves: seq<Request>): map<nat, Ram>
    decreases saves
  {
    if saves == [] then rams else Recorded(rams[saves[0].cycle := saves[0].ram], saves[1..])
  }

  /** Saves at strictly increasing cycles from next on. */
  predicate InTurn(saves: seq<Request>, next: nat)
    decreases saves
  {
    saves == []
    || (next <= saves[0].cycle < 10000000000000000 && saves[0].ram != [] && InTurn(saves[1..], saves[0].cycle + 1))
  }

  /** The first cycle after a run of saves. */
  function Finish(saves: seq<Request>, next: nat): nat
    decreases saves
  {
    if saves == [] then next else Finish(saves[1..], saves[0].cycle + 1)
  }

  lemma Later(st: Store, rams: map<nat, Ram>, next: nat, later: nat)
    requires Sound(st, rams, next) && next <= later
    ensures Sound(st, rams, later)
  {
    hide Increasing, Leaning, Whole;
  }

  /** Over any run of saves at increasing cycles, with any number kept, every
      snapshot that is still there rebuilds the RAM of its save. */
  lemma {:induction false} EverySnapshotRestores(st: Store, rams: map<nat, Ram>, next: nat,
        saves: seq<Request>, keep: nat)
    requires Sound(st, rams, next) && InTurn(saves, next)
    ensures Sound(SaveAll(st, saves, keep), Recorded(rams, saves), Finish(saves, next))
    decreases saves
  {
    if saves != [] {
      EverySnapshotRestoresOne(st, rams, next, saves, keep);
    }
  }

  lemma {:induction false} EverySnapshotRestoresOne(st: Store, rams: map<nat, Ram>, next: nat,
        saves: seq<Request>, keep: nat)
    requires saves != [] && Sound(st, rams, next) && InTurn(saves, next)
    ensures Sound(SaveAll(st, saves, keep), Recorded(rams, saves), Finish(saves, next))
    decreases saves, 0
  {
    hide Sound, Save;
    var s := saves[0];
    Later(st, rams, next, s.cycle);
    SaveSound(st, rams, s.cycle, s.ram, keep);
    EverySnapshotRestores(Save(st, s.cycle, s.ram, keep), rams[s.cycle := s.ram], s.cycle + 1, saves[1..], keep);
  }

  function Cycles(snaps: seq<Snap>): seq<nat> {
    seq(|snaps|, i requires 0 <= i < |snaps| => snaps[i].cycle)
  }

  function Asked(saves: seq<Request>): seq<nat> {
    seq(|saves|, i requires 0 <= i < |saves| => saves[i].cycle)
  }

  function Last(cycles: seq<nat>, keep: nat): seq<nat> {
    if keep > 0 && |cycles| > keep then cycles[|cycles| - keep..] else cycles
  }

  lemma LastOfLast(a: seq<nat>, b: seq<nat>, keep: nat)
    ensures Last(Last(a, keep) + b, keep) == Last(a + b, keep)
  {
    if keep > 0 && |a| > keep {
      assert a + b == a[..|a| - keep] + (a[|a| - keep..] + b);
    }
  }

  /** And those still there are the last ones asked for, in order. */
  lemma {:induction false} NewestAreKept(st: Store, rams: map<nat, Ram>, next: nat, saves: seq<Request>, keep: nat)
    requires Sound(st, rams, next) && InTurn(saves, next) && Last(Cycles(st.snaps), keep) == Cycles(st.snaps)
    ensures Cycles(SaveAll(st, saves, keep).snaps) == Last(Cycles(st.snaps) + Asked(saves), keep)
    decreases saves
  {
    if saves == [] {
      assert Cycles(st.snaps) + Asked(saves) == Cycles(st.snaps);
    } else {
      NewestAreKeptOne(st, rams, next, saves, keep);
    }
  }

  lemma {:induction false} NewestAreKeptOne(st: Store, rams: map<nat, Ram>, next: nat, saves: seq<Request>, keep: nat)
    requires saves != []
    requires Sound(st, rams, next) && InTurn(saves, next) && Last(Cycles(st.snaps), keep) == Cycles(st.snaps)
    ensures Cycles(SaveAll(st, saves, keep).snaps) == Last(Cycles(st.snaps) + Asked(saves), keep)
    decreases saves, 0
  {
    hide Sound, Save, Take, InTurn, Cycles, Asked, Last, Kept;
    var s, r := saves[0], Save(st, saves[0].cycle, saves[0].ram, keep);
    InTurnHead(saves, next);
    Later(st, rams, next, s.cycle);
    SaveSound(st, rams, s.cycle, s.ram, keep);
    var snap := Take(st, s.cycle, s.ram).1;
    TakeCycle(st, s.cycle, s.ram);
    KeptCycles(st.snaps, snap, keep);
    LastOfLast(Cycles(st.snaps) + [s.cycle], [], keep);
    assert Last(Cycles(st.snaps) + [s.cycle], keep) + [] == Last(Cycles(st.snaps) + [s.cycle], keep);
    assert Cycles(st.snaps) + [s.cycle] + [] == Cycles(st.snaps) + [s.cycle];
    NewestAreKept(r, rams[s.cycle := s.ram], s.cycle + 1, saves[1..], keep);
    LastOfLast(Cycles(st.snaps) + [s.cycle], Asked(saves[1..]), keep);
    AskedHead(saves);
    assert Cycles(st.snaps) + [s.cycle] + Asked(saves[1..]) == Cycles(st.snaps) + ([s.cycle] + Asked(saves[1..]));
  }

  lemma KeptCycles(snaps: seq<Snap>, s: Snap, keep: nat)
    ensures Cycles(Kept(snaps + [s], keep)) == Last(Cycles(snaps) + [s.cycle], keep)
  {
  }

  lemma AskedHead(saves: seq<Request>)
    requires saves != []
    ensures Asked(saves) == [saves[0].cycle] + Asked(saves[1..])
  {
  }

  lemma InTurnHead(saves: seq<Request>, next: nat)
    requires saves != [] && InTurn(saves, next)
    ensures next <= saves[0].cycle < 10000000000000000 && saves[0].ram != [] && InTurn(saves[1..], saves[0].cycle + 1)
  {
  }

  lemma TakeCycle(st: Store, cycle: nat, ram: Ram)
    ensures Take(st, cycle, ram).1.cycle == cycle
  {
  }

  /** The order of the cycles matters. After a later snapshot, one taken at an
      earlier cycle is pruned at once, keyframe and all, and the next snapshot
      leans on that keyframe. */
  lemma EarlierSaveBreaksNext(a: Ram, b: Ram)
    requires |a| == |b| == 1 && a != b
    ensures var st := Save(Store([], map[], [], 0, 0), 10, a, 1);
            var st' := Save(Save(st, 5, b, 1), 11, b, 1);
            st'.snaps == [Snap(11, 5, [])] && 5 !in st'.keys
  {
    assert a[0] != b[0] by {
      assert a == [a[0]] && b == [b[0]];
    }
    var s0 := Save(Store([], map[], [], 0, 0), 10, a, 1);
    assert s0 == Store([Snap(10, 10, [])], map[10 := a], a, 10, 1);
    EarlierSave(s0, a, b);
    LaterSave(Save(s0, 5, b, 1), a, b);
  }

  lemma OneDiffers(a: Ram, b: Ram)
    requires |a| == |b| == 1
    ensures Diff(b, a, 0) == if a[0] == b[0] then [] else [Patch(0, b[0])]
  {
    assert Diff(b, a, 1) == [];
  }

  lemma FiveTenEleven()
    ensures Sorted(5, 10) && !Sorted(11, 10)
  {
    PowerOfSixteen();
    NamesInOrder(5, 10, 16);
    NamesInOrder(11, 10, 16);
  }

  lemma EarlierSave(st: Store, a: Ram, b: Ram)
    requires |a| == |b| == 1 && a[0] != b[0] && st == Store([Snap(10, 10, [])], map[10 := a], a, 10, 1)
    ensures Save(st, 5, b, 1) == Store([Snap(10, 10, [])], map[10 := a], b, 5, 1)
  {
    hide Sorted, Diff, Save;
    var x, y := Snap(5, 5, []), Snap(10, 10, []);
    FiveTenEleven();
    OneDiffers(a, b);
    assert Take(st, 5, b) == (st.(keys := st.keys[5 := b], keyRam := b, keyName := 5, uses := 1), x);
    assert Insert([y], x) == [x] + [y] == [x, y];
    assert Kept([x, y], 1) == [y] && y in [y];
    SaveIs(st, 5, b, 1);
    assert Used([y]) == {10};
    assert Save(st, 5, b, 1).keys == map[10 := a];
  }

  lemma LaterSave(st: Store, a: Ram, b: Ram)
    requires |a| == |b| == 1 && a[0] != b[0] && st == Store([Snap(10, 10, [])], map[10 := a], b, 5, 1)
    ensures Save(st, 11, b, 1).snaps == [Snap(11, 5, [])] && 5 !in Save(st, 11, b, 1).keys
  {
    hide Sorted, Diff, Save;
    var x, y := Snap(11, 5, []), Snap(10, 10, []);
    FiveTenEleven();
    OneDiffers(b, b);
    assert Take(st, 11, b) == (st.(uses := 2), x);
    assert Insert([], x) == [x] && Insert([y], x) == [y] + Insert([y][1..], x);
    assert [y][1..] == [] && [y] + [x] == [y, x];
    assert Kept([y, x], 1) == [x];
    SaveIs(st, 11, b, 1);
  }
}
