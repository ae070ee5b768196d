/**
 * The daily-spend bucket (internal/policy/store.go): a persistent map from
 * key strings to byte strings, and the ledger of (wallet, token, day)
 * counters that it stands for.
 */
module Store {
  import opened Bytes
  import opened Int64
  import Digits

  // ----- Days and keys -----

  datatype Date = Date(year: nat, month: nat, day: nat)

  /** A UTC day whose year prints with four digits. */
  type Day = d: Date | d.year <= 9999 && 1 <= d.month <= 12 && 1 <= d.day <= 31 witness Date(1970, 1, 1)

  datatype Slot = Slot(wallet: string, token: string, day: Day)

  /** Wallet names are limited to letters, digits, `-` and `_`. */
  predicate Proper(slot: Slot) {
    '/' !in slot.wallet
  }

  function TwoDigits(n: nat): (s: string)
    requires n < 100
    ensures |s| == 2
  {
    [Digits.Digit(n / 10), Digits.Digit(n % 10)]
  }

  /** The layout `2006-01-02`. */
  function FormatDay(day: Day): (s: string)
    ensures |s| == 10
  {
    TwoDigits(day.year / 100) + TwoDigits(day.year % 100) + "-" + TwoDigits(day.month) + "-" + TwoDigits(day.day)
  }

  function SpendKey(wallet: string, token: string): string {
    wallet + "/" + token
  }

  function DailySpendKey(spendKey: string, day: Day): string {
    spendKey + "/" + FormatDay(day)
  }

  function Key(slot: Slot): string {
    DailySpendKey(SpendKey(slot.wallet, slot.token), slot.day)
  }

  lemma TwoDigitsInjective(m: nat, n: nat)
    requires m < 100 && n < 100
    requires TwoDigits(m) == TwoDigits(n)
    ensures m == n
  {
  }

  lemma FormatDayInjective(a: Day, b: Day)
    requires FormatDay(a) == FormatDay(b)
    ensures a == b
  {
    var s, t := FormatDay(a), FormatDay(b);
    assert s[0..2] == TwoDigits(a.year / 100) && t[0..2] == TwoDigits(b.year / 100);
    assert s[2..4] == TwoDigits(a.year % 100) && t[2..4] == TwoDigits(b.year % 100);
    assert s[5..7] == TwoDigits(a.month) && t[5..7] == TwoDigits(b.month);
    assert s[8..10] == TwoDigits(a.day) && t[8..10] == TwoDigits(b.day);
    TwoDigitsInjective(a.year / 100, b.year / 100);
    TwoDigitsInjective(a.year % 100, b.year % 100);
    TwoDigitsInjective(a.month, b.month);
    TwoDigitsInjective(a.day, b.day);
  }

  /** A prefix free of the separator ends at the first separator. */
  lemma SplitAtFirst(u: string, x: string, v: string, y: string)
    requires '/' !in u && '/' !in v
    requires u + "/" + x == v + "/" + y
    ensures u == v && x == y
  {
    var s, t := u + "/" + x, v + "/" + y;
    assert s[|u|] == '/' && t[|v|] == '/';
    if |u| < |v| {
      assert false;
    }
    if |v| < |u| {
      assert false;
    }
    assert s[..|u|] == u && t[..|v|] == v && s[|u| + 1..] == x && t[|v| + 1..] == y;
  }

  /** No two counters of proper wallets share a key, whatever the token identifiers contain. */
  lemma KeyInjective(a: Slot, b: Slot)
    requires Proper(a) && Proper(b)
    ensures Key(a) == Key(b) <==> a == b
  {
    if Key(a) == Key(b) {
      var restA, restB := a.token + "/" + FormatDay(a.day), b.token + "/" + FormatDay(b.day);
      assert Key(a) == a.wallet + "/" + restA && Key(b) == b.wallet + "/" + restB;
      SplitAtFirst(a.wallet, restA, b.wallet, restB);
      assert restA[|restA| - 10..] == FormatDay(a.day) && restB[|restB| - 10..] == FormatDay(b.day);
      assert restA[..|restA| - 11] == a.token && restB[..|restB| - 11] == b.token;
      FormatDayInjective(a.day, b.day);
    }
  }

  /** Without the restriction on wallet names two different counters do share a key. */
  lemma SlashMergesCounters(token: string, day: Day)
    ensures Slot("a/b", token, day) != Slot("a", "b/" + token, day)
    ensures Key(Slot("a/b", token, day)) == Key(Slot("a", "b/" + token, day))
  {
  }

  // ----- The bucket and the ledger it stands for -----

  type Bucket = map<string, seq<Byte>>
  type Counters<!K> = map<K, Int64>
  type Ledger = Counters<Slot>

  function Counter(bucket: Bucket, key: string): Int64 {
    if key in bucket then Decode(bucket[key]) else 0
  }

  function Credited(bucket: Bucket, key: string, amount: Int64): Bucket {
    bucket[key := Encode(Wrap(Counter(bucket, key) + amount))]
  }

  /** The comparison is made on the wrapped sum. */
  predicate Admits(current: Int64, amount: Int64, limit: Int64) {
    Wrap(current + amount) <= limit
  }

  function Read<K(==)>(counters: Counters<K>, k: K): Int64 {
    if k in counters then counters[k] else 0
  }

  function Credit<K(==)>(counters: Counters<K>, k: K, amount: int): Counters<K> {
    counters[k := Wrap(Read(counters, k) + amount)]
  }

  ghost predicate Simulates(bucket: Bucket, ledger: Ledger) {
    forall slot: Slot :: Proper(slot) ==> Counter(bucket, Key(slot)) == Read(ledger, slot)
  }

  lemma StoringSimulates(bucket: Bucket, after: Bucket, ledger: Ledger, slot: Slot, total: Int64)
    requires Simulates(bucket, ledger) && Proper(slot) && Counter(after, Key(slot)) == total
    requires forall key :: key != Key(slot) ==> Counter(after, key) == Counter(bucket, key)
    ensures Simulates(after, ledger[slot := total])
  {
    forall other: Slot | Proper(other)
      ensures Counter(after, Key(other)) == Read(ledger[slot := total], other)
    {
      KeyInjective(slot, other);
    }
  }

  lemma CreditSimulates(bucket: Bucket, ledger: Ledger, slot: Slot, amount: Int64)
    requires Simulates(bucket, ledger) && Proper(slot)
    ensures Simulates(Credited(bucket, Key(slot), amount), Credit(ledger, slot, amount))
  {
    var total := Wrap(Read(ledger, slot) + amount);
    CounterRoundTrip(total);
    StoringSimulates(bucket, Credited(bucket, Key(slot), amount), ledger, slot, total);
  }

  /**
   * When the reservation is admitted, the exact total obeys the limit if and
   * only if the unguarded addition did not wrap.
   */
  lemma AdmissionIsExact(current: Int64, amount: Int64, limit: Int64)
    requires 0 <= amount && 0 <= current && Admits(current, amount, limit)
    ensures current + amount <= limit <==> current + amount <= MAX
  {
  }

  /**
   * A full counter admits two transfers of ten against a limit of ten: the first
   * sum wraps below zero and the second stays there.
   */
  lemma AdmissionCanWrap()
    ensures Admits(MAX, 10, 10) && Admits(Wrap(MAX + 10), 10, 10)
  {
  }

  // ----- The store object -----

  class SpendStore {
    var bucket: Bucket

    constructor ()
      ensures bucket == map[]
    {
      bucket := map[];
    }

    method GetDailySpend(spendKey: string, day: Day) returns (total: Int64)
      ensures total == Counter(bucket, DailySpendKey(spendKey, day))
    {
      total := 0;
      var key := DailySpendKey(spendKey, day);
      if key in bucket && |bucket[key]| == 8 {
        total := Decode(bucket[key]);
      }
    }

    /** `commits` is whether the database accepts the update transaction. */
    method AddDailySpend(spendKey: string, day: Day, amount: Int64, commits: bool) returns (ok: bool)
      modifies this
      ensures ok == commits
      ensures bucket == if commits then Credited(old(bucket), DailySpendKey(spendKey, day), amount) else old(bucket)
    {
      var key := DailySpendKey(spendKey, day);
      var current: Int64 := 0;
      if key in bucket && |bucket[key]| == 8 {
        current := Decode(bucket[key]);
      }
      if !commits {
        return false;
      }
      var newTotal := Wrap(current + amount);
      bucket := bucket[key := Encode(newTotal)];
      ok := true;
    }

    method CheckAndReserve(spendKey: string, day: Day, amount: Int64, limit: Int64, commits: bool)
      returns (allowed: bool, current: Int64, ok: bool)
      modifies this
      ensures ok == commits
      ensures current == Counter(old(bucket), DailySpendKey(spendKey, day))
      ensures allowed == Admits(current, amount, limit)
      ensures bucket == if commits && allowed then Credited(old(bucket), DailySpendKey(spendKey, day), amount)
                else old(bucket)
    {
      var key := DailySpendKey(spendKey, day);
      current := 0;
      if key in bucket && |bucket[key]| == 8 {
        current := Decode(bucket[key]);
      }
      if Wrap(current + amount) > limit {
        return false, current, commits;
      }
      allowed, ok := true, commits;
      if commits {
        var newTotal := Wrap(current + amount);
        bucket := bucket[key := Encode(newTotal)];
      }
    }
  }
}
