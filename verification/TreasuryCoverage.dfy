/** The solvency report: bank cash net of the committed operations against the wallet balances. */
module TreasuryCoverage {
  import opened Money
  import opened Ledger
  import opened Options

  /** What asking one bank account for its balance gives. A balance that is not a number
      (`None`) is read and counts as zero. */
  datatype Reading =
    | NoCapability
    | Answered(available: Option<real>, mock: Option<bool>)
    | BankError

  datatype Account = Account(provider: string, number: string, reading: Reading)

  datatype AccountLine = AccountLine(provider: string, number: string, available: Option<real>, source: string)

  datatype Treasury = Treasury(
    available: Option<real>,
    bankBalance: Option<real>,
    committed: Option<real>,
    mock: Option<bool>,
    partial: bool,
    lines: seq<AccountLine>,
    accountsRead: nat,
    accountsFailed: nat)

  datatype Solvency = Unknown | NoLiability | Covered | Undercollateralized

  /** The USDC backing: the treasury's available balance and the custodial accounts. */
  datatype UsdcReading = StellarError | UsdcRead(treasury: Option<real>, custodial: real, custodialPartial: bool)

  datatype AssetReport = AssetReport(status: Solvency, ratio: Option<real>, surplus: Option<real>)

  datatype Report = Report(alert: bool, bob: AssetReport, usdc: AssetReport, bobTreasury: Treasury)

  predicate Readable(a: Account) {
    a.reading.Answered?
  }

  function Contribution(a: Account): real {
    if Readable(a) && a.reading.available.Some? then a.reading.available.value else 0.0
  }

  function Gross(banks: seq<Account>): real {
    if banks == [] then 0.0 else Gross(banks[..|banks| - 1]) + Contribution(banks[|banks| - 1])
  }

  function ReadCount(banks: seq<Account>): nat {
    if banks == [] then 0 else ReadCount(banks[..|banks| - 1]) + if Readable(banks[|banks| - 1]) then 1 else 0
  }

  predicate AllReadable(banks: seq<Account>) {
    forall i :: 0 <= i < |banks| ==> Readable(banks[i])
  }

  predicate AnyMock(banks: seq<Account>) {
    exists i :: 0 <= i < |banks| && Readable(banks[i]) && banks[i].reading.mock == Some(true)
  }

  function LineOf(a: Account): AccountLine {
    match a.reading
    case NoCapability => AccountLine(a.provider, a.number, None, "no-balance-capability")
    case Answered(available, _) => AccountLine(a.provider, a.number, available, "bank")
    case BankError => AccountLine(a.provider, a.number, None, "bank-error")
  }

  /** Cash left for the wallets once the committed amount is set aside, never below zero. */
  function Net(gross: real, committed: real): real {
    Fixed2(Max(0.0, Fixed2(gross) - committed))
  }

  function Solvent(available: Option<real>, liability: real): Solvency {
    match available
    case None => Unknown
    case Some(a) =>
      if liability == 0.0 then NoLiability
      else if a >= liability then Covered
      else Undercollateralized
  }

  /** A partial reading of a positive liability is neither coverage nor deficit. */
  function AssetStatus(available: Option<real>, partial: bool, liability: real): Solvency {
    if liability > 0.0 && partial && available.Some? then Unknown else Solvent(available, liability)
  }

  /** `t` is the treasury side of the report for these accounts. */
  predicate Reports(t: Treasury, banks: seq<Account>, committed: Option<real>) {
    if |banks| == 0 then t.available == None && t.partial
    else
      && t.accountsRead == ReadCount(banks)
      && t.accountsFailed == |banks| - ReadCount(banks)
      && t.partial == (!AllReadable(banks) || committed.None?)
      && t.committed == committed
      && t.bankBalance == (if ReadCount(banks) > 0 then Some(Fixed2(Gross(banks))) else None)
      && t.available == (if ReadCount(banks) > 0 && committed.Some? then Some(Net(Gross(banks), committed.value)) else None)
      && t.mock == (if ReadCount(banks) > 0 then Some(AnyMock(banks)) else None)
      && t.lines == seq(|banks|, i requires 0 <= i < |banks| => LineOf(banks[i]))
  }

  /** One account more. */
  lemma OneMore(banks: seq<Account>, i: nat)
    requires i < |banks|
    ensures Gross(banks[..i + 1]) == Gross(banks[..i]) + Contribution(banks[i])
    ensures ReadCount(banks[..i + 1]) == ReadCount(banks[..i]) + if Readable(banks[i]) then 1 else 0
    ensures AllReadable(banks[..i + 1]) <==> AllReadable(banks[..i]) && Readable(banks[i])
    ensures AnyMock(banks[..i + 1]) <==> AnyMock(banks[..i]) || (Readable(banks[i]) && banks[i].reading.mock == Some(true))
  {
    var some, more := banks[..i], banks[..i + 1];
    assert more[..i] == some && more[i] == banks[i];
    assert forall j :: 0 <= j < i ==> more[j] == some[j];
    if AnyMock(some) {
      var j :| 0 <= j < i && Readable(some[j]) && some[j].reading.mock == Some(true);
      assert Readable(more[j]) && more[j].reading.mock == Some(true);
    }
  }

  /** The loop over the accounts. */
  method ReadAccounts(banks: seq<Account>)
    returns (gross: real, read: nat, failures: nat, anyMock: bool, lines: seq<AccountLine>)
    ensures gross == Gross(banks) && read == ReadCount(banks) && failures == |banks| - read
    ensures failures == 0 <==> AllReadable(banks)
    ensures anyMock == AnyMock(banks)
    ensures lines == seq(|banks|, i requires 0 <= i < |banks| => LineOf(banks[i]))
  {
    gross, read, failures, anyMock, lines := 0.0, 0, 0, false, [];
    for i := 0 to |banks|
      invariant gross == Gross(banks[..i])
      invariant read == ReadCount(banks[..i]) && failures == i - read
      invariant failures == 0 <==> AllReadable(banks[..i])
      invariant anyMock == AnyMock(banks[..i])
      invariant |lines| == i && forall j :: 0 <= j < i ==> lines[j] == LineOf(banks[j])
    {
      OneMore(banks, i);
      var bank := banks[i];
      match bank.reading {
        case NoCapability =>
          failures := failures + 1;
          lines := lines + [AccountLine(bank.provider, bank.number, None, "no-balance-capability")];
        case BankError =>
          failures := failures + 1;
          lines := lines + [AccountLine(bank.provider, bank.number, None, "bank-error")];
        case Answered(available, mock) =>
          gross := gross + if available.Some? then available.value else 0.0;
          read := read + 1;
          if mock == Some(true) {
            anyMock := true;
          }
          lines := lines + [AccountLine(bank.provider, bank.number, available, "bank")];
      }
    }
    assert banks[..|banks|] == banks;
  }

  method ReadBobTreasury(banks: seq<Account>, committed: Option<real>) returns (t: Treasury)
    ensures Reports(t, banks, committed)
  {
    if |banks| == 0 {
      return Treasury(None, None, None, None, true, [], 0, 0);
    }
    var gross, read, failures, anyMock, lines := ReadAccounts(banks);
    var partial := failures > 0 || committed.None?;
    var grossRounded := if read > 0 then Some(Fixed2(gross)) else None;
    var net := if grossRounded.None? || committed.None? then None
               else Some(Fixed2(Max(0.0, grossRounded.value - committed.value)));
    t := Treasury(net, grossRounded, committed, if read > 0 then Some(anyMock) else None,
                  partial, lines, read, failures);
  }

  /** The report's BOB status as a function of the readings alone. */
  function BobStatus(banks: seq<Account>, committed: Option<real>, liability: real): Solvency {
    var available :=
      if ReadCount(banks) > 0 && committed.Some? then Some(Net(Gross(banks), committed.value)) else None;
    AssetStatus(available, !AllReadable(banks) || committed.None?, liability)
  }

  function UsdcAvailable(u: UsdcReading): Option<real> {
    if u.UsdcRead? && u.treasury.Some? then Some(FixedAt(u.treasury.value + u.custodial, 1000000.0)) else None
  }

  predicate UsdcPartial(u: UsdcReading) {
    u.StellarError? || u.custodialPartial
  }

  function Ratio(available: Option<real>, liability: real): Option<real> {
    if available.None? || liability == 0.0 then None else Some(FixedAt(available.value / liability, 10000.0))
  }

  function AssetSummary(available: Option<real>, partial: bool, liability: real, scale: real): AssetReport
    requires scale > 0.0
  {
    AssetReport(
      AssetStatus(available, partial, liability), Ratio(available, liability),
      if available.Some? then Some(FixedAt(available.value - liability, scale)) else None)
  }

  method GetTreasuryCoverage(
    banks: seq<Account>, committed: Option<real>, bobLiability: real, usdcReading: UsdcReading, usdcLiability: real)
    returns (r: Report)
    ensures Reports(r.bobTreasury, banks, committed)
    ensures r.bob.status == BobStatus(banks, committed, bobLiability)
    ensures r.bob == AssetSummary(r.bobTreasury.available, r.bobTreasury.partial, bobLiability, 100.0)
    ensures r.usdc == AssetSummary(UsdcAvailable(usdcReading), UsdcPartial(usdcReading), usdcLiability, 1000000.0)
    ensures r.alert <==> r.bob.status == Undercollateralized || r.usdc.status == Undercollateralized
  {
    var t := ReadBobTreasury(banks, committed);
    var usdcAvailable, usdcPartial := None, true;
    if usdcReading.UsdcRead? {
      usdcAvailable := if usdcReading.treasury.None? then None
                       else Some(FixedAt(usdcReading.treasury.value + usdcReading.custodial, 1000000.0));
      usdcPartial := usdcReading.custodialPartial;
    }
    var bob := if bobLiability > 0.0 && t.partial && t.available.Some? then Unknown
               else Solvent(t.available, bobLiability);
    var usdc := if usdcLiability > 0.0 && usdcPartial && usdcAvailable.Some? then Unknown
                else Solvent(usdcAvailable, usdcLiability);
    var under := [];
    if bob == Undercollateralized { under := under + [bob]; }
    if usdc == Undercollateralized { under := under + [usdc]; }
    r := Report(
      |under| > 0,
      AssetReport(bob, Ratio(t.available, bobLiability),
                  if t.available.Some? then Some(FixedAt(t.available.value - bobLiability, 100.0)) else None),
      AssetReport(usdc, Ratio(usdcAvailable, usdcLiability),
                  if usdcAvailable.Some? then Some(FixedAt(usdcAvailable.value - usdcLiability, 1000000.0)) else None),
      t);
  }

  /** The gross sum adds up the answers that carry an amount. */
  lemma {:induction false} GrossAdds(a: seq<Account>, b: seq<Account>)
    ensures Gross(a + b) == Gross(a) + Gross(b) && ReadCount(a + b) == ReadCount(a) + ReadCount(b)
    decreases |b|
  {
    if b == [] {
      assert a + b == a;
    } else {
      assert (a + b)[..|a + b| - 1] == a + b[..|b| - 1];
      GrossAdds(a, b[..|b| - 1]);
    }
  }

  lemma GrossOfOne(a: Account)
    ensures Gross([]) == 0.0 && ReadCount([]) == 0
    ensures Gross([a]) == match a.reading case Answered(Some(x), _) => x case _ => 0.0
    ensures ReadCount([a]) == match a.reading case Answered(_, _) => 1 case _ => 0
  {
    assert [a][..0] == [];
  }

  /** What the net is: the rounded cash less the committed amount, cut off at zero, to the cent. */
  lemma NetMeaning(gross: real, committed: real)
    requires WholeCents(committed)
    ensures var left := Fixed2(gross) - committed;
            Net(gross, committed) == if left >= 0.0 then left else 0.0
  {
    Fixed2Facts(gross);
    WholeCentsClosed(Fixed2(gross), committed);
    Round2Whole(Fixed2(gross) - committed);
    Round2Whole(0.0);
  }

  /** The status of an asset, each answer exactly when. */
  lemma StatusMeaning(available: Option<real>, partial: bool, liability: real, scale: real)
    requires scale > 0.0 && liability >= 0.0
    ensures var status := AssetSummary(available, partial, liability, scale).status;
            && (status == Unknown <==> available.None? || (partial && liability > 0.0))
            && (status == NoLiability <==> available.Some? && liability == 0.0)
            && (status == Covered <==> available.Some? && !partial && liability > 0.0 && available.value >= liability)
            && (status == Undercollateralized <==>
                  available.Some? && !partial && liability > 0.0 && available.value < liability)
  {
  }

  /** What the report says of each account and of the readings together. */
  lemma ReportMeaning(t: Treasury, banks: seq<Account>, committed: Option<real>)
    requires Reports(t, banks, committed)
    ensures banks == [] ==> t.available == None && t.partial
    ensures banks != [] ==>
              && |t.lines| == |banks|
              && (forall i :: 0 <= i < |banks| ==>
                    t.lines[i] == match banks[i].reading
                                  case NoCapability => AccountLine(banks[i].provider, banks[i].number, None, "no-balance-capability")
                                  case Answered(x, _) => AccountLine(banks[i].provider, banks[i].number, x, "bank")
                                  case BankError => AccountLine(banks[i].provider, banks[i].number, None, "bank-error"))
              && (t.partial <==> committed.None? || exists i :: 0 <= i < |banks| && !banks[i].reading.Answered?)
              && (t.mock.Some? ==>
                    (t.mock == Some(true) <==>
                       exists i :: 0 <= i < |banks| && banks[i].reading.Answered? && banks[i].reading.mock == Some(true)))
              && (t.mock.None? <==> t.accountsRead == 0) && (t.bankBalance.None? <==> t.accountsRead == 0)
              && (t.available.None? <==> t.accountsRead == 0 || committed.None?)
              && t.accountsRead + t.accountsFailed == |banks| && t.committed == committed
  {
    ReadCountAll(banks);
  }

  /** The USDC backing: unknown when Stellar or the treasury could not be read, otherwise the treasury and
      the custodial accounts together, to six decimals; partial when either reading was. */
  lemma UsdcBacking(u: UsdcReading)
    ensures UsdcAvailable(u).None? <==> u.StellarError? || u.treasury.None?
    ensures UsdcAvailable(u).Some? ==>
              Shown(UsdcAvailable(u).value, u.treasury.value + u.custodial, 1000000.0)
    ensures UsdcPartial(u) <==> u == StellarError || (u.UsdcRead? && u.custodialPartial)
  {
    if UsdcAvailable(u).Some? {
      FixedAtShown(u.treasury.value + u.custodial, 1000000.0);
    }
  }

  /** The ratio is absent exactly where it means nothing, otherwise the quotient to four decimals. */
  lemma RatioMeaning(available: Option<real>, liability: real)
    ensures Ratio(available, liability).None? <==> available.None? || liability == 0.0
    ensures Ratio(available, liability).Some? ==> Shown(Ratio(available, liability).value, available.value / liability, 10000.0)
  {
    if available.Some? && liability != 0.0 {
      FixedAtShown(available.value / liability, 10000.0);
    }
  }

  /** `shown` is `exact` to the decimals of `scale`: a multiple of the last one, at most half of it away. */
  ghost predicate Shown(shown: real, exact: real, scale: real)
    requires scale > 0.0
  {
    Abs(shown - exact) * scale <= 0.5 && exists n: int :: OnGrid(shown, scale, n)
  }

  lemma FixedAtShown(x: real, scale: real)
    requires scale > 0.0
    ensures Shown(FixedAt(x, scale), x, scale)
  {
    FixedAtNear(x, scale);
    FixedAtOnGrid(x, scale);
  }

  /** The surplus is the difference to the decimals of the currency, whenever something was read. */
  lemma SurplusMeaning(available: Option<real>, partial: bool, liability: real, scale: real)
    requires scale > 0.0
    ensures var r := AssetSummary(available, partial, liability, scale);
            && (r.surplus.None? <==> available.None?)
            && (r.surplus.Some? ==> Shown(r.surplus.value, available.value - liability, scale))
  {
    if available.Some? {
      FixedAtShown(available.value - liability, scale);
    }
  }

  /** The surplus has the sign of the status, except that a deficit of less than half of its last decimal
      is shown as zero. */
  lemma SurplusSign(available: real, liability: real, scale: real)
    requires liability > 0.0 && scale > 0.0
    ensures var r := AssetSummary(Some(available), false, liability, scale);
            && r.surplus.Some?
            && (r.status == Covered ==> r.surplus.value >= 0.0)
            && (r.surplus.value < 0.0 <==> r.status == Undercollateralized && (liability - available) * scale >= 0.5)
  {
    FixedAtSign(available - liability, scale);
  }

  // ── Soundness ─────────────────────────────────────────────────────────────

  lemma {:induction false} ReadCountAll(banks: seq<Account>)
    ensures ReadCount(banks) <= |banks|
    ensures ReadCount(banks) == |banks| <==> AllReadable(banks)
  {
    if banks != [] {
      ReadCountAll(banks[..|banks| - 1]);
      assert forall i :: 0 <= i < |banks| - 1 ==> banks[..|banks| - 1][i] == banks[i];
    }
  }

  lemma NetOf(gross: real, committed: real, liability: real)
    requires liability > 0.0 && WholeCents(committed)
    ensures Net(gross, committed) >= liability <==> Fixed2(gross) - committed >= liability
  {
    Round2Whole(gross);
    Round2Whole(-gross);
    assert WholeCents(Fixed2(gross)) by {
      if gross < 0.0 { WholeCentsClosed(0.0, Round2(-gross)); }
    }
    WholeCentsClosed(Fixed2(gross), committed);
    Round2Whole(Fixed2(gross) - committed);
    Round2Whole(0.0);
  }

  /** With a positive liability the report commits itself exactly when every active account was
      read and the committed amount is known; then it compares, to the cent, what is left. */
  lemma BobStatusMeaning(banks: seq<Account>, committed: Option<real>, liability: real)
    requires liability > 0.0
    requires committed.Some? ==> WholeCents(committed.value)
    ensures var readable := banks != [] && AllReadable(banks) && committed.Some?;
            var status := BobStatus(banks, committed, liability);
            && (status == Unknown <==> !readable)
            && (status == Covered <==> readable && Fixed2(Gross(banks)) - committed.value >= liability)
            && (status == Undercollateralized <==> readable && Fixed2(Gross(banks)) - committed.value < liability)
  {
    ReadCountAll(banks);
    if committed.Some? {
      NetOf(Gross(banks), committed.value, liability);
    }
  }

  /** "Covered" means the cash really reaches both liabilities, up to one cent of rounding. */
  lemma CoveredIsSound(banks: seq<Account>, txs: map<string, Tx>, wallets: map<nat, real>, entity: string)
    requires Liability(wallets, entity) > 0.0
    requires BobStatus(banks, Some(Fixed2(Committed(txs, entity))), Liability(wallets, entity)) == Covered
    ensures AllReadable(banks)
    ensures Gross(banks) >= Committed(txs, entity) + Liability(wallets, entity) - 0.01
  {
    var c, g := Committed(txs, entity), Gross(banks);
    Fixed2Facts(c);
    Fixed2Facts(g);
    BobStatusMeaning(banks, Some(Fixed2(c)), Liability(wallets, entity));
  }

  lemma Fixed2Facts(x: real)
    ensures WholeCents(Fixed2(x))
    ensures Fixed2(x) - 0.005 <= x <= Fixed2(x) + 0.005
  {
    if x >= 0.0 {
      Round2Whole(x);
      Round2Near(x);
    } else {
      Round2Whole(-x);
      Round2Near(-x);
      WholeCentsClosed(0.0, Round2(-x));
    }
  }

  // ── The order of the accounts ─────────────────────────────────────────────

  lemma {:induction false} TakeOut(banks: seq<Account>, k: nat)
    requires k < |banks|
    ensures var rest := banks[..k] + banks[k + 1..];
            && Gross(banks) == Gross(rest) + Contribution(banks[k])
            && ReadCount(banks) == ReadCount(rest) + if Readable(banks[k]) then 1 else 0
    decreases |banks|
  {
    var n := |banks| - 1;
    var front := banks[..n];
    if k < n {
      TakeOut(front, k);
      var left := front[..k] + front[k + 1..];
      assert banks[..k] + banks[k + 1..] == left + [banks[n]];
      Snoc(left, banks[n]);
    } else {
      assert banks[..k] + banks[k + 1..] == front;
    }
  }

  lemma Snoc(banks: seq<Account>, a: Account)
    ensures Gross(banks + [a]) == Gross(banks) + Contribution(a)
    ensures ReadCount(banks + [a]) == ReadCount(banks) + if Readable(a) then 1 else 0
  {
    assert (banks + [a])[..|banks|] == banks;
  }

  /** Taking the same account out of two permutations leaves two permutations. */
  lemma TakeOutBoth(a: seq<Account>, b: seq<Account>) returns (k: nat)
    requires a != [] && multiset(a) == multiset(b)
    ensures k < |b| && b[k] == a[|a| - 1]
    ensures multiset(a[..|a| - 1]) == multiset(b[..k] + b[k + 1..])
  {
    var n := |a| - 1;
    assert a == a[..n] + [a[n]];
    assert a[n] in multiset(b);
    k :| 0 <= k < |b| && b[k] == a[n];
    var b1, b2 := b[..k], b[k + 1..];
    assert b == b1 + [b[k]] + b2;
    assert multiset(b) == multiset(b1) + multiset{b[k]} + multiset(b2);
    assert multiset(a[..n] + [a[n]]) == multiset(a[..n]) + multiset{a[n]};
    assert multiset(b1 + b2) == multiset(b1) + multiset(b2) == multiset(b) - multiset{b[k]};
    assert multiset(a[..n]) == multiset(a) - multiset{a[n]};
  }

  lemma {:induction false} PermutedTotals(a: seq<Account>, b: seq<Account>)
    requires multiset(a) == multiset(b)
    ensures |a| == |b| && Gross(a) == Gross(b) && ReadCount(a) == ReadCount(b)
    decreases |a|
  {
    assert |multiset(a)| == |a| && |multiset(b)| == |b|;
    if a != [] {
      var k := TakeOutBoth(a, b);
      PermutedTotals(a[..|a| - 1], b[..k] + b[k + 1..]);
      TakeOut(b, k);
    }
  }

  lemma AccountOrderIrrelevant(a: seq<Account>, b: seq<Account>, committed: Option<real>, liability: real)
    requires multiset(a) == multiset(b)
    ensures BobStatus(a, committed, liability) == BobStatus(b, committed, liability)
  {
    PermutedTotals(a, b);
    ReadCountAll(a);
    ReadCountAll(b);
  }
}
