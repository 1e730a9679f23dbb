/**
 The block register of one market in Redis: "<milliseconds>:<0 or 1>", replaced by a script
 unless the stored stamp is newer. Lua writes a number with 14 significant digits (%.14g), so
 a register is kept here as the number its text denotes, and the text is derived from it.
 */
module MarketBlock {
  import opened Rounding
  import opened Text
  import opened Wrappers

  /** From here on %.14g writes a whole number with an exponent. */
  const EXPONENT_FROM := 100_000_000_000_000

  predicate Plain(stamp: int) {
    Abs(stamp) < EXPONENT_FROM
  }

  function ExponentText(n: nat): string {
    var digits := NatText(n);
    var tail := TrimZeros(digits[1..]);
    digits[..1] + (if tail == "" then "" else "." + tail) + "e+" + NatText(|digits| - 1)
  }

  /** tostring, for a number that has at most 14 significant digits. */
  function LuaText(n: int): string {
    if Plain(n) then IntText(n) else (if n < 0 then "-" else "") + ExponentText(Abs(n))
  }

  datatype Register = Register(stamp: int, blocked: bool)

  function FlagText(blocked: bool): string {
    if blocked then "1" else "0"
  }

  /** The value of the key. */
  function RegisterText(r: Register): string {
    LuaText(r.stamp) + ":" + FlagText(r.blocked)
  }

  /** A call of SynchronizeState. */
  datatype Call = Call(stamp: int, blocked: bool)

  /** The script: 1 and the new value, or 0 and the old one. */
  function Synchronize(current: Option<Register>, c: Call): (Option<Register>, bool) {
    if current.Some? && c.stamp < current.value.stamp then (current, false)
    else (Some(Register(Rounded(c.stamp), c.blocked)), true)
  }

  function Run(calls: seq<Call>): Option<Register> {
    if calls == [] then None else Synchronize(Run(calls[..|calls| - 1]), calls[|calls| - 1]).0
  }

  /** strings.Split. */
  function Split(s: string, separator: char): (parts: seq<string>)
    ensures parts != []
  {
    if s == "" then [""]
    else
      var rest := Split(s[1..], separator);
      if s[0] == separator then [""] + rest else [[s[0]] + rest[0]] + rest[1..]
  }

  function ParseBlockedState(raw: string): Option<Register> {
    var parts := Split(raw, ':');
    if |parts| != 2 || ParseInt(parts[0]).None? then None
    else if parts[1] == "1" then Some(Register(ParseInt(parts[0]).value, true))
    else if parts[1] == "0" then Some(Register(ParseInt(parts[0]).value, false))
    else None
  }

  // ----- The store -----

  class MarketBlockStore {
    var key: Option<Register>

    constructor ()
      ensures key == None
    {
      key := None;
    }

    /** The script may have run although the caller was told that it failed. */
    method SynchronizeState(blocked: bool, updatedAt: int, outcome: Outcome) returns (applied: bool, ok: bool)
      modifies this
      ensures key == if outcome.NotRan? then old(key) else Synchronize(old(key), Call(updatedAt, blocked)).0
      ensures !outcome.NotRan? && (old(key).None? || old(key).value.stamp <= updatedAt) ==>
                key == Some(Register(Rounded(updatedAt), blocked))
      ensures outcome.NotRan? || (old(key).Some? && updatedAt < old(key).value.stamp) ==> key == old(key)
      ensures ok == outcome.Ran?
      ensures applied <==> outcome.Ran? && (old(key).None? || old(key).value.stamp <= updatedAt)
    {
      ok, applied := outcome.Ran?, false;
      if outcome.NotRan? {
        return;
      }
      if key.None? || updatedAt >= key.value.stamp {
        key := Some(Register(Rounded(updatedAt), blocked));
        applied := ok;
      }
    }

    /** A value that cannot be read is deleted and reported. */
    method IsBlocked() returns (blocked: bool, ok: bool)
      modifies this
      ensures key == if ok then old(key) else None
      ensures old(key).None? ==> ok && !blocked
      ensures old(key).Some? ==> ok == Plain(old(key).value.stamp) && (ok ==> blocked == old(key).value.blocked)
    {
      if key.None? {
        return false, true;
      }
      ReadBackExactly(key.value);
      var parsed := ParseBlockedState(RegisterText(key.value));
      if parsed.None? {
        key := None;
        return false, false;
      }
      return parsed.value.blocked, true;
    }
  }

  // ----- Reading back -----

  predicate Without(s: string, c: char) {
    forall i | 0 <= i < |s| :: s[i] != c
  }

  lemma {:induction false} SplitOnce(a: string, b: string, separator: char)
    requires Without(a, separator) && Without(b, separator)
    ensures Split(a + [separator] + b, separator) == [a, b]
  {
    var s := a + [separator] + b;
    if a == "" {
      assert s[1..] == b;
      SplitNone(b, separator);
    } else {
      assert s[1..] == a[1..] + [separator] + b;
      SplitOnce(a[1..], b, separator);
      assert a == [a[0]] + a[1..];
    }
  }

  lemma {:induction false} SplitNone(a: string, separator: char)
    requires Without(a, separator)
    ensures Split(a, separator) == [a]
  {
    if a != "" {
      SplitNone(a[1..], separator);
      assert a == [a[0]] + a[1..];
    }
  }

  lemma {:induction false} TrimZerosPrefix(s: string)
    ensures TrimZeros(s) <= s
  {
    if s != "" && s[|s| - 1] == '0' {
      TrimZerosPrefix(s[..|s| - 1]);
    }
  }

  lemma ExponentTextForm(n: nat)
    ensures Without(ExponentText(n), ':') && 'e' in ExponentText(n)
    ensures ExponentText(n) != "" && IsDigit(ExponentText(n)[0])
  {
    NatTextDigits(n);
    var digits := NatText(n);
    TrimZerosPrefix(digits[1..]);
    NatTextDigits(|digits| - 1);
    var tail := TrimZeros(digits[1..]);
    var point := if tail == "" then "" else "." + tail;
    assert ExponentText(n) == digits[..1] + point + "e+" + NatText(|digits| - 1);
    assert ExponentText(n)[1 + |point|] == 'e';
  }

  lemma PlainTextForm(n: int)
    ensures Without(IntText(n), ':')
  {
    NatTextDigits(Abs(n));
  }

  /** A stored value is read back, as it was written, exactly when its stamp is below 10^14 milliseconds. */
  lemma ReadBackExactly(r: Register)
    ensures -100_000_000_000_000 < r.stamp < 100_000_000_000_000 ==> ParseBlockedState(RegisterText(r)) == Some(r)
    ensures !(-100_000_000_000_000 < r.stamp < 100_000_000_000_000) ==> ParseBlockedState(RegisterText(r)) == None
  {
    var text, flag := LuaText(r.stamp), FlagText(r.blocked);
    if Plain(r.stamp) {
      PlainTextForm(r.stamp);
      ParseIntText(r.stamp);
    } else {
      ExponentTextForm(Abs(r.stamp));
      ExponentTextUnread(r.stamp);
    }
    SplitOnce(text, flag, ':');
    assert RegisterText(r) == text + [':'] + flag;
  }

  lemma {:induction false} SplitJoins(s: string, separator: char)
    ensures |Split(s, separator)| == 1 ==> s == Split(s, separator)[0]
    ensures |Split(s, separator)| == 2 ==> s == Split(s, separator)[0] + [separator] + Split(s, separator)[1]
  {
    if s != "" {
      SplitJoins(s[1..], separator);
      assert s == [s[0]] + s[1..];
    }
  }

  /** Only a number, a colon and a 0 or 1 are read, as just that; any other value of the key is refused. */
  lemma OnlyRegistersAreRead(raw: string)
    ensures
      var r := ParseBlockedState(raw);
      r.Some? ==> exists text: string ::
        && ParseInt(text) == Some(r.value.stamp)
        && (raw == text + ":1" || raw == text + ":0") && (r.value.blocked <==> raw == text + ":1")
  {
    var r, parts := ParseBlockedState(raw), Split(raw, ':');
    if r.Some? {
      SplitJoins(raw, ':');
      var text := parts[0];
      assert raw == text + ":" + parts[1];
      assert (text + ":1")[|text| + 1] == '1' && (text + ":0")[|text| + 1] == '0';
      assert ParseInt(text) == Some(r.value.stamp);
      assert if parts[1] == "1" then raw == text + ":1" else raw == text + ":0";
    }
  }

  lemma ExponentTextUnread(n: int)
    requires !Plain(n)
    ensures ParseInt(LuaText(n)) == None
  {
    var exponent := ExponentText(Abs(n));
    ExponentTextForm(Abs(n));
    assert n < 0 ==> LuaText(n)[1..] == exponent;
    assert n >= 0 ==> LuaText(n) == exponent;
    var i :| 0 <= i < |exponent| && exponent[i] == 'e';
    assert !AllDigits(exponent);
  }

  // ----- Last writer wins -----

  /** Call k has the greatest stamp, and no later call has the same. */
  predicate LastOfNewest(calls: seq<Call>, k: nat) {
    && k < |calls|
    && (forall j | 0 <= j < |calls| :: calls[j].stamp <= calls[k].stamp)
    && (forall j | k < j < |calls| :: calls[j].stamp < calls[k].stamp)
  }

  lemma {:induction false} Newest(calls: seq<Call>) returns (k: nat)
    requires calls != []
    ensures LastOfNewest(calls, k)
  {
    var n := |calls| - 1;
    k := n;
    if n > 0 {
      var m := Newest(calls[..n]);
      if calls[n].stamp < calls[m].stamp {
        k := m;
      }
    }
  }

  /**
   Call i is one the register may show: it has the stored number, and unless the greatest stamp was rounded
   up it is not older than that number.
   */
  predicate MayShow(calls: seq<Call>, newest: int, i: nat) {
    && i < |calls|
    && Rounded(calls[i].stamp) == Rounded(newest)
    && (Rounded(newest) <= newest ==> Rounded(newest) <= calls[i].stamp)
  }

  /** Since the key was created the register holds the greatest stamp seen, rounded, and the state of such a call. */
  lemma {:induction false} HoldsNewestRounded(calls: seq<Call>, k: nat) returns (i: nat)
    requires LastOfNewest(calls, k)
    ensures MayShow(calls, calls[k].stamp, i)
    ensures Run(calls) == Some(Register(Rounded(calls[k].stamp), calls[i].blocked))
  {
    var n := |calls| - 1;
    if n == 0 {
      i := 0;
      assert Run(calls[..0]) == None;
    } else {
      var m := Newest(calls[..n]);
      var j := HoldsNewestRounded(calls[..n], m);
      var c := calls[n].stamp;
      NextStamp(calls[m].stamp, calls[j].stamp, c);
      assert calls[k].stamp == if calls[m].stamp < c then c else calls[m].stamp;
      i := if Rounded(calls[m].stamp) <= c then n else j;
    }
  }

  /** One more stamp c after newest, when the register shows a call with stamp shown. */
  lemma NextStamp(newest: int, shown: int, c: int)
    requires shown <= newest && Rounded(shown) == Rounded(newest) && (Rounded(newest) <= newest ==> Rounded(newest) <= shown)
    ensures
      var newest', shown' := if newest < c then c else newest, if Rounded(newest) <= c then c else shown;
      && Rounded(shown') == Rounded(newest')
      && (Rounded(newest') <= newest' ==> Rounded(newest') <= shown')
  {
    var before := Rounded(newest);
    RoundedStays(newest);
    if before <= c {
      RoundedMonotone(before, c);
    } else {
      RoundedMonotone(c, before);
    }
    if c <= newest {
      RoundedMonotone(c, newest);
    } else {
      RoundedMonotone(newest, c);
    }
  }

  /** A greatest stamp of at most 14 significant digits is stored as it is, with the last state sent with it. */
  lemma {:induction false} LastWriterWins(calls: seq<Call>, k: nat)
    requires LastOfNewest(calls, k) && FourteenDigits(calls[k].stamp)
    ensures Run(calls) == Some(Register(calls[k].stamp, calls[k].blocked))
  {
    var n := |calls| - 1;
    KeptExactly(calls[k].stamp);
    if n == k {
      if n > 0 {
        var m := Newest(calls[..n]);
        var i := HoldsNewestRounded(calls[..n], m);
        RoundedMonotone(calls[m].stamp, calls[k].stamp);
      }
    } else {
      LastWriterWins(calls[..n], k);
    }
  }

  /**
   The law of the register, exactly: it holds the greatest stamp seen and the last state sent with it if and
   only if that stamp has at most 14 significant digits, whatever the other stamps are.
   */
  lemma LastWriterWinsExactly(calls: seq<Call>, k: nat)
    requires LastOfNewest(calls, k)
    ensures Run(calls) == Some(Register(calls[k].stamp, calls[k].blocked)) <==> FourteenDigits(calls[k].stamp)
  {
    KeptExactly(calls[k].stamp);
    if FourteenDigits(calls[k].stamp) {
      LastWriterWins(calls, k);
    } else {
      var i := HoldsNewestRounded(calls, k);
    }
  }

  /** A further call is applied exactly when its stamp is not below the rounded greatest stamp seen. */
  lemma AppliedExactly(calls: seq<Call>, k: nat, c: Call)
    requires LastOfNewest(calls, k)
    ensures Synchronize(Run(calls), c).1 <==> Rounded(calls[k].stamp) <= c.stamp
  {
    var i := HoldsNewestRounded(calls, k);
  }

  predicate StampsIn(calls: seq<Call>, stamps: iset<int>) {
    forall i | 0 <= i < |calls| :: calls[i].stamp in stamps
  }

  ghost predicate ObeysLaw(calls: seq<Call>) {
    forall k: nat | LastOfNewest(calls, k) :: Run(calls) == Some(Register(calls[k].stamp, calls[k].blocked))
  }

  /** Over a set of stamps every sequence of calls obeys the law exactly when all stamps have at most 14 digits. */
  lemma LawOverStamps(stamps: iset<int>)
    ensures (forall calls: seq<Call> | StampsIn(calls, stamps) :: ObeysLaw(calls)) <==> forall stamp | stamp in stamps :: FourteenDigits(stamp)
  {
    forall calls: seq<Call>, k: nat | StampsIn(calls, stamps) && LastOfNewest(calls, k)
      ensures Run(calls) == Some(Register(calls[k].stamp, calls[k].blocked)) <==> FourteenDigits(calls[k].stamp)
    {
      LastWriterWinsExactly(calls, k);
    }
    if forall calls: seq<Call> | StampsIn(calls, stamps) :: ObeysLaw(calls) {
      forall stamp | stamp in stamps ensures FourteenDigits(stamp) {
        var calls := [Call(stamp, true)];
        assert StampsIn(calls, stamps) && LastOfNewest(calls, 0);
        assert ObeysLaw(calls);
      }
    }
  }

  // ----- Convergence -----

  /** The same calls, in any order and multiplicity. */
  ghost predicate SameCalls(a: seq<Call>, b: seq<Call>) {
    forall c :: c in a <==> c in b
  }

  /** The calls that the register may show agree on the state. */
  ghost predicate ShownAgree(calls: seq<Call>, newest: int) {
    forall i: nat, j: nat | MayShow(calls, newest, i) && MayShow(calls, newest, j) :: calls[i].blocked == calls[j].blocked
  }

  lemma SameNewest(a: seq<Call>, b: seq<Call>, k: nat, m: nat)
    requires SameCalls(a, b) && LastOfNewest(a, k) && LastOfNewest(b, m)
    ensures a[k].stamp == b[m].stamp
  {
    assert a[k] in a && b[m] in b;
    var x :| 0 <= x < |b| && b[x] == a[k];
    var y :| 0 <= y < |a| && a[y] == b[m];
  }

  lemma AgreeingConverge(a: seq<Call>, b: seq<Call>, k: nat)
    requires LastOfNewest(a, k) && SameCalls(a, b) && ShownAgree(a, a[k].stamp)
    ensures Run(a) == Run(b)
  {
    assert a[k] in b;
    var m := Newest(b);
    SameNewest(a, b, k, m);
    var i := HoldsNewestRounded(a, k);
    var j := HoldsNewestRounded(b, m);
    assert b[j] in a;
    var x :| 0 <= x < |a| && a[x] == b[j];
    assert MayShow(a, a[k].stamp, x);
  }

  /** Some order ends with the state of any call that may be shown. */
  lemma CanShow(a: seq<Call>, k: nat, i: nat) returns (b: seq<Call>)
    requires LastOfNewest(a, k) && MayShow(a, a[k].stamp, i)
    ensures SameCalls(a, b) && Run(b) == Some(Register(Rounded(a[k].stamp), a[i].blocked))
  {
    assert a[i] in a;
    if Rounded(a[k].stamp) <= a[k].stamp {
      b := a + [a[i]];
      assert b[..|a|] == a;
      var j := HoldsNewestRounded(a, k);
    } else {
      b := [a[i]] + a;
      OlderChangeNothing(a[i], a);
    }
  }

  lemma {:induction false} OlderChangeNothing(first: Call, rest: seq<Call>)
    requires forall j | 0 <= j < |rest| :: rest[j].stamp < Rounded(first.stamp)
    ensures Run([first] + rest) == Some(Register(Rounded(first.stamp), first.blocked))
  {
    var calls := [first] + rest;
    if rest == [] {
      assert calls[..0] == [] && calls == [first];
    } else {
      var n := |rest| - 1;
      assert calls[..|calls| - 1] == [first] + rest[..n];
      OlderChangeNothing(first, rest[..n]);
    }
  }

  /** All delivery orders converge exactly when the calls that may be shown agree on the state. */
  lemma OrdersConvergeExactly(a: seq<Call>, k: nat)
    requires LastOfNewest(a, k)
    ensures (forall b | SameCalls(a, b) :: Run(b) == Run(a)) <==> ShownAgree(a, a[k].stamp)
  {
    if ShownAgree(a, a[k].stamp) {
      forall b | SameCalls(a, b) ensures Run(b) == Run(a) {
        AgreeingConverge(a, b, k);
      }
    } else {
      var i: nat, j: nat :| MayShow(a, a[k].stamp, i) && MayShow(a, a[k].stamp, j) && a[i].blocked != a[j].blocked;
      var b := CanShow(a, k, i);
      var c := CanShow(a, k, j);
    }
  }

  predicate OneStatePerStamp(calls: seq<Call>) {
    forall i, j | 0 <= i < |calls| && 0 <= j < |calls| && calls[i].stamp == calls[j].stamp :: calls[i] == calls[j]
  }

  /** So versions with one state per stamp converge if the newest stamp has at most 14 significant digits. */
  lemma OrdersConverge(a: seq<Call>, b: seq<Call>, k: nat)
    requires LastOfNewest(a, k) && FourteenDigits(a[k].stamp) && OneStatePerStamp(a) && SameCalls(a, b)
    ensures Run(a) == Run(b) == Some(Register(a[k].stamp, a[k].blocked))
  {
    KeptExactly(a[k].stamp);
    forall i: nat, j: nat | MayShow(a, a[k].stamp, i) && MayShow(a, a[k].stamp, j) ensures a[i].blocked == a[j].blocked {
      assert a[i].stamp == a[j].stamp;
    }
    AgreeingConverge(a, b, k);
    LastWriterWins(a, k);
  }

  /** A rounded stamp can hide a newer state: two calls above 10^14 ms of which the newer one is refused. */
  lemma RoundedStampHidesNewerState()
    ensures Run([Call(100_000_000_000_006, true), Call(100_000_000_000_008, false)]) == Some(Register(100_000_000_000_010, true))
  {
    var a, b := Call(100_000_000_000_006, true), Call(100_000_000_000_008, false);
    RoundedUp();
    assert [a][..0] == [] && [a, b][..1] == [a];
    assert Run([a]) == Some(Register(100_000_000_000_010, true));
  }

  lemma RoundedUp()
    ensures Rounded(100_000_000_000_006) == 100_000_000_000_010
  {
    var n: nat := 100_000_000_000_006;
    assert Pow10(14) == 100_000_000_000_000;
    assert Pow10(15) == 10 * Pow10(14);
    LengthOf(n, 15);
    assert Pow10(1) == 10 * Pow10(0);
    assert n / 10 == 10_000_000_000_000 && n % 10 == 6;
  }
}
