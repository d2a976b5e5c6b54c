/** Sector addresses: the taskfile registers hold every address in range, and
    advancing them walks consecutive sectors. */
module IdeAddresses {
  import opened Platform
  import opened Ide

  /** The addresses the registers can tell apart. */
  function Span(r: Regs): (n: nat)
    ensures 0 < n <= 0x1_0000_0000
  {
    if r.lba != 0 then 0x1000_0000 else 0x1_0000_0000
  }

  /** The address k sectors on, wrapping at the span. */
  function Onward(lba: nat, k: nat, span: nat): (r: nat)
    requires span > 0
    ensures r < span
  {
    (lba + k) % span
  }

  predicate Geometry(v: Drive) {
    1 <= v.heads <= 256 && 1 <= v.spt
  }

  lemma Mono(a: nat, b: nat, c: nat)
    requires a <= b
    ensures a * c <= b * c
  {
    assert b * c == a * c + (b - a) * c;
  }

  lemma Divide(n: nat, d: nat)
    requires d > 0
    ensures n == n / d * d + n % d && 0 <= n % d < d
  {
  }

  /** A quotient and a remainder are determined by their number. */
  lemma Unique(n: nat, d: nat, q: nat, r: nat)
    requires d > 0 && n == q * d + r && r < d
    ensures n / d == q && n % d == r
  {
    var q' := n / d;
    Divide(n, d);
    if q' > q {
      Mono(q + 1, q', d);
    } else if q' < q {
      Mono(q' + 1, q, d);
    }
  }

  lemma QuotientBelow(n: nat, d: nat, m: nat)
    requires d > 0 && n < m * d
    ensures n / d < m
  {
    Divide(n, d);
    if n / d >= m {
      Mono(m, n / d, d);
    }
  }

  lemma QuotientAtMost(n: nat, d: nat)
    requires d > 0
    ensures n / d <= n
  {
    Divide(n, d);
    Mono(1, d, n / d);
  }

  lemma Regroup(c: nat, h: nat, s: nat, q: nat)
    ensures (c * h + q) * s == c * (h * s) + q * s
  {
  }

  /** The cylinder, head and sector of an address name it again. */
  lemma ChsRoundTrip(lba: nat, heads: nat, spt: nat)
    requires heads >= 1 && spt >= 1
    ensures heads * spt > 0
    ensures var rest := lba % (heads * spt);
            && rest / spt < heads && rest % spt < spt && lba / (heads * spt) <= lba
            && (lba / (heads * spt) * heads + rest / spt) * spt + rest % spt == lba
  {
    Mono(1, heads, spt);
    var n := heads * spt;
    Divide(lba, n);
    QuotientAtMost(lba, n);
    var cyl, rest := lba / n, lba % n;
    Divide(rest, spt);
    QuotientBelow(rest, spt, heads);
    Regroup(cyl, heads, spt, rest / spt);
  }

  /** The address in three given registers. */
  lemma ChsValue(r: Regs, v: Drive, c: nat, h: nat, s: nat)
    requires r.lba == 0 && r.cylinder == c && r.head == h && r.sector == s + 1
    ensures GetLba(r, v) == ((c * v.heads + h) * v.spt + s) % 0x1_0000_0000
  {
    assert (c * v.heads + h) * v.spt + r.sector - 1 == (c * v.heads + h) * v.spt + s;
  }

  // Quotient and remainder by name, so that a proof can leave them alone.
  function Quot(n: nat, d: nat): nat
    requires d > 0
  {
    n / d
  }

  function Rem(n: nat, d: nat): nat
    requires d > 0
  {
    n % d
  }

  lemma PutUnfolds(r: Regs, v: Drive, lba: Word32)
    requires Geometry(v) && r.lba == 0
    ensures v.heads * v.spt > 0
    ensures var rest := Rem(lba, v.heads * v.spt);
            && Quot(lba, v.heads * v.spt) < 0x1_0000_0000
            && PutLba(r, v, lba)
               == r.(cylinder := Quot(lba, v.heads * v.spt), head := Rem(Quot(rest, v.spt), 0x100),
                     sector := Rem(Rem(rest, v.spt) + 1, 0x1_0000))
  {
    Mono(1, v.heads, v.spt);
    QuotientAtMost(lba, v.heads * v.spt);
  }

  lemma RemSmall(x: nat, m: nat)
    requires x < m
    ensures Rem(x, m) == x
  {
    Small(x, m);
  }

  lemma ChsParts(lba: nat, heads: nat, spt: nat) returns (c: nat, h: nat, s: nat)
    requires heads >= 1 && spt >= 1
    ensures heads * spt > 0
    ensures var rest := Rem(lba, heads * spt);
            c == Quot(lba, heads * spt) && h == Quot(rest, spt) && s == Rem(rest, spt)
    ensures h < heads && s < spt && (c * heads + h) * spt + s == lba
  {
    ChsRoundTrip(lba, heads, spt);
    var rest := lba % (heads * spt);
    c, h, s := lba / (heads * spt), rest / spt, rest % spt;
  }

  /** The registers put_lba leaves in CHS mode. */
  lemma PutChs(r: Regs, v: Drive, lba: Word32) returns (c: nat, h: nat, s: nat)
    requires Geometry(v) && r.lba == 0
    ensures c < 0x1_0000_0000 && h < v.heads && s < v.spt && (c * v.heads + h) * v.spt + s == lba
    ensures PutLba(r, v, lba) == r.(cylinder := c, head := h, sector := s + 1)
  {
    hide PutLba, Quot, Rem;
    PutUnfolds(r, v, lba);
    c, h, s := ChsParts(lba, v.heads, v.spt);
    RemSmall(h, 0x100);
    RemSmall(s + 1, 0x1_0000);
  }

  /** get_lba undoes put_lba for every address the registers can hold, and
      put_lba leaves a sector from 1 to spt and a head below the number of
      heads. */
  lemma GetUndoesPut(r: Regs, v: Drive, lba: Word32)
    requires Geometry(v)
    ensures PutLba(r, v, lba).lba == r.lba
    ensures GetLba(PutLba(r, v, lba), v) == lba % Span(r)
    ensures r.lba == 0 ==> 1 <= PutLba(r, v, lba).sector <= v.spt && PutLba(r, v, lba).head < v.heads
  {
    if r.lba == 0 {
      var c, h, s := PutChs(r, v, lba);
      ChsValue(r.(cylinder := c, head := h, sector := s + 1), v, c, h, s);
    } else {
      LbaRoundTrip(lba);
    }
  }

  lemma Small(x: nat, m: nat)
    requires x < m
    ensures x % m == x
  {
  }

  lemma LbaRoundTrip(lba: Word32)
    ensures lba % 0x100 + lba / 0x100 % 0x1_0000 * 0x100 + lba / 0x100_0000 % 0x10 * 0x100_0000 == lba % 0x1000_0000
  {
  }

  /** put_lba undoes get_lba on the registers it could have left, so distinct
      addresses are distinct registers. */
  lemma PutUndoesGet(r: Regs, v: Drive)
    requires Geometry(v) && r.lba == 0
    requires 1 <= r.sector <= v.spt && r.head < v.heads
    requires (r.cylinder * v.heads + r.head) * v.spt + r.sector - 1 < 0x1_0000_0000
    ensures PutLba(r, v, GetLba(r, v)) == r
  {
    var c, h, s := r.cylinder, r.head, r.sector - 1;
    ChsValue(r, v, c, h, s);
    Small((c * v.heads + h) * v.spt + s, 0x1_0000_0000);
    var c', h', s' := PutChs(r, v, GetLba(r, v));
    ChsUnique(v.heads, v.spt, c, h, s, c', h', s');
  }

  lemma ChsUnique(heads: nat, spt: nat, c: nat, h: nat, s: nat, c': nat, h': nat, s': nat)
    requires h < heads && h' < heads && s < spt && s' < spt
    requires (c * heads + h) * spt + s == (c' * heads + h') * spt + s'
    ensures c == c' && h == h' && s == s'
  {
    Digits(spt, c * heads + h, s, c' * heads + h', s');
    Digits(heads, c, h, c', h');
  }

  lemma Digits(d: nat, q: nat, r: nat, q': nat, r': nat)
    requires r < d && r' < d && q * d + r == q' * d + r'
    ensures q == q' && r == r'
  {
    if q < q' {
      Mono(q + 1, q', d);
    } else if q' < q {
      Mono(q' + 1, q, d);
    }
  }

  /** Advancing goes to the next sector, and past the last one to sector 0. */
  lemma AdvanceIsNext(r: Regs, v: Drive)
    requires Geometry(v)
    ensures GetLba(Advance(r, v), v) == Onward(GetLba(r, v), 1, Span(r))
    ensures Advance(r, v).lba == r.lba
  {
    var a: int := GetLba(r, v);
    GetUndoesPut(r, v, (a + 1) % 0x1_0000_0000);
    Nested(a + 1, r);
  }

  lemma Nested(a: nat, r: Regs)
    requires a <= 0x1_0000_0000
    ensures a % 0x1_0000_0000 % Span(r) == a % Span(r)
  {
    if a == 0x1_0000_0000 {
      assert 0x1_0000_0000 % 0x1000_0000 == 0;
    }
  }

  lemma Carry(n: nat, m: nat)
    requires m > 0
    ensures (n % m + 1) % m == (n + 1) % m
  {
    Divide(n, m);
    var q, r := n / m, n % m;
    if r + 1 < m {
      Small(r + 1, m);
      Unique(n + 1, m, q, r + 1);
    } else {
      assert (q + 1) * m == q * m + m;
      Unique(m, m, 1, 0);
      Unique(n + 1, m, q + 1, 0);
    }
  }

  function AdvanceBy(r: Regs, v: Drive, k: nat): (s: Regs)
    requires Geometry(v)
  {
    if k == 0 then r else Advance(AdvanceBy(r, v, k - 1), v)
  }

  /** Repeated advancing walks consecutive sectors. */
  lemma {:induction false} AdvanceWalks(r: Regs, v: Drive, k: nat)
    requires Geometry(v)
    ensures AdvanceBy(r, v, k).lba == r.lba
    ensures GetLba(AdvanceBy(r, v, k), v) == Onward(GetLba(r, v), k, Span(r))
  {
    if k == 0 {
      GetInSpan(r, v);
      Small(GetLba(r, v), Span(r));
    }
    if k > 0 {
      AdvanceWalks(r, v, k - 1);
      AdvanceIsNext(AdvanceBy(r, v, k - 1), v);
      Carry(GetLba(r, v) + k - 1, Span(r));
    }
  }

  /** Steps onward add up. */
  lemma OnwardAdds(a: nat, j: nat, k: nat, m: nat)
    requires m > 0
    ensures Onward(Onward(a, j, m), k, m) == Onward(a, j + k, m)
  {
    hide Onward;
    var q, b := OnwardRem(a, j, m);
    var p, r := OnwardRem(b, k, m);
    Distribute(q, p, m);
    OnwardUnique(a, j + k, q + p, r, m);
  }

  lemma OnwardRem(a: nat, j: nat, m: nat) returns (q: nat, r: nat)
    requires m > 0
    ensures a + j == q * m + r && r < m && Onward(a, j, m) == r
  {
    q, r := (a + j) / m, (a + j) % m;
  }

  lemma OnwardUnique(a: nat, j: nat, q: nat, r: nat, m: nat)
    requires m > 0 && r < m && a + j == q * m + r
    ensures Onward(a, j, m) == r
  {
    Unique(a + j, m, q, r);
  }

  lemma Distribute(q: nat, p: nat, m: nat)
    ensures (q + p) * m == q * m + p * m
  {
  }

  /** An address read from the registers is in their span. */
  lemma GetInSpan(r: Regs, v: Drive)
    ensures GetLba(r, v) < Span(r)
  {
  }
}
