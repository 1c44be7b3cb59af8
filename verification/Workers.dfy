/** Consumer identities: one per worker thread and process start. */
module Workers {
  import opened Prelude
  import opened Jobs

  const ID_LIMIT := 128

  function Digit(n: nat): char
    requires n < 10
  {
    "0123456789"[n]
  }

  function Decimal(n: nat): (s: string)
    ensures s != [] && ':' !in s
  {
    if n < 10 then [Digit(n)] else Decimal(n / 10) + [Digit(n % 10)]
  }

  /** `s[:k]`, counting from the end when k is negative. */
  function SliceTo(s: string, k: int): string {
    if 0 <= k then s[..Min(k, |s|)] else s[..Max(0, |s| + k)]
  }

  function Suffix(boot: string, slot: nat): string {
    ":" + boot + ":" + Decimal(slot)
  }

  function ConsumerId(prefix: string, boot: string, slot: nat): string {
    SliceTo(prefix, ID_LIMIT - |Suffix(boot, slot)|) + Suffix(boot, slot)
  }

  lemma {:induction false} DecimalIsInjective(m: nat, n: nat)
    requires Decimal(m) == Decimal(n)
    ensures m == n
    decreases m
  {
    var (s, t) := (Decimal(m), Decimal(n));
    assert s[|s| - 1] == Digit(m % 10) && t[|t| - 1] == Digit(n % 10);
    assert m % 10 == n % 10;
    if 10 <= m && 10 <= n {
      assert s[..|s| - 1] == Decimal(m / 10) && t[..|t| - 1] == Decimal(n / 10);
      DecimalIsInjective(m / 10, n / 10);
    } else {
      assert |s| == 1 <==> m < 10;
      assert |t| == 1 <==> n < 10;
    }
  }

  /** The text after the last colon is determined by the whole. */
  lemma LastColonSplits(a: string, d: string, b: string, e: string)
    requires a + ":" + d == b + ":" + e && ':' !in d && ':' !in e
    ensures a == b && d == e
  {
    var s := a + ":" + d;
    assert s[|a|] == ':' && s[|b|] == ':';
    assert s[|a| + 1..] == d && s[|b| + 1..] == e;
    assert forall i | |a| < i < |s| :: s[i] == d[i - |a| - 1];
    assert forall i | |b| < i < |s| :: s[i] == e[i - |b| - 1];
    assert |a| == |b|;
    assert s[..|a|] == a && s[..|b|] == b;
  }

  /** An identity ends in its boot id, a colon and its slot. */
  lemma IdEndsInSuffix(prefix: string, boot: string, slot: nat) returns (p: string)
    ensures ConsumerId(prefix, boot, slot) == (p + boot) + ":" + Decimal(slot)
  {
    p := SliceTo(prefix, ID_LIMIT - |Suffix(boot, slot)|) + ":";
  }

  lemma SameEnd(p: string, boot: string, p': string, boot': string)
    requires p + boot == p' + boot' && |boot| == |boot'|
    ensures boot == boot'
  {
    assert |p| == |p'|;
    assert (p + boot)[|p|..] == boot && (p' + boot')[|p|..] == boot';
  }

  /**
    Distinct (boot, slot) pairs never share an identity, even if the configured prefixes differ or
    are truncated; and the identity always satisfies the claimer's length check.
  */
  lemma ConsumerIdsAreUnique(prefix: string, boot: string, slot: nat, prefix': string, boot': string, slot': nat)
    requires |boot| == 32 == |boot'|
    requires |Decimal(slot)| <= 94
    ensures 1 <= |ConsumerId(prefix, boot, slot)| <= ID_LIMIT
    ensures ConsumerId(prefix, boot, slot) == ConsumerId(prefix', boot', slot') ==> boot == boot' && slot == slot'
  {
    if ConsumerId(prefix, boot, slot) == ConsumerId(prefix', boot', slot') {
      var p := IdEndsInSuffix(prefix, boot, slot);
      var p' := IdEndsInSuffix(prefix', boot', slot');
      LastColonSplits(p + boot, Decimal(slot), p' + boot', Decimal(slot'));
      DecimalIsInjective(slot, slot');
      SameEnd(p, boot, p', boot');
    }
  }
}
