/**
 * The demo-data command (core/management/commands/seed.py): the RUT and plate generators,
 * the status a seeded part starts in, and the cap of four log entries per work order.
 * The random draws are parameters.
 */
module Seed {
  import opened Wrappers
  import opened Text
  import opened Models
  import opened Validators
  import opened Inventory

  // ---------------------------------------------------------------- RUT

  /** `calcular_digito_verificador_rut`: the mod-11 check character of `str(n)`. */
  function SeedCheckDigit(n: nat): (dv: char)
    ensures IsCheckChar(dv)
  {
    CheckDigit(NatToString(n))
  }

  /** A number the generator draws is written with eight digits. */
  lemma EightDigits(n: nat)
    requires 10000000 <= n <= 25000000
    ensures |NatToString(n)| == 8
  {
    assert Pow10(7) == 10000000 && Pow10(8) == 100000000;
    NatToStringLength(n, 8);
  }

  /** `generar_rut_chileno` for the drawn number: `"<n>-<dv>"`. */
  function GenerateRut(n: nat): (r: string)
    requires 10000000 <= n <= 25000000
    ensures |r| == 10 && r[8] == '-' && AllDigits(r[..8]) && IsCheckChar(r[9])
  {
    EightDigits(n);
    var body := NatToString(n);
    var r := body + "-" + [SeedCheckDigit(n)];
    assert r[..8] == body;
    r
  }

  /** Every RUT the generator can draw passes `validar_rut_chileno`. */
  lemma GeneratedRutAccepted(n: nat)
    requires 10000000 <= n <= 25000000
    ensures ValidateRut(GenerateRut(n)) == Valid
  {
    EightDigits(n);
    DashedRut(NatToString(n), SeedCheckDigit(n));
  }

  /**
   * For a seven- or eight-digit number, the generator's check character is the only one the
   * validator accepts after `"<n>-"`: the two compute the same digit.
   */
  lemma SeedCheckDigitIsValidators(n: nat, c: char)
    requires Pow10(6) <= n < Pow10(8)
    requires IsCheckChar(c)
    ensures ValidateRut(NatToString(n) + "-" + [c]).Valid? <==> c == SeedCheckDigit(n)
  {
    if n < Pow10(7) {
      NatToStringLength(n, 7);
    } else {
      NatToStringLength(n, 8);
    }
    DashedRut(NatToString(n), c);
  }

  // ---------------------------------------------------------------- plates

  /** The upper-case letter at position `d` of `string.ascii_uppercase`. */
  function LetterChar(d: nat): (c: char)
    requires d < 26
    ensures IsUpper(c)
  {
    ('A' as int + d) as char
  }

  predicate LetterIndices(idx: seq<nat>) {
    forall i :: 0 <= i < |idx| ==> idx[i] < 26
  }

  predicate DigitIndices(idx: seq<nat>) {
    forall i :: 0 <= i < |idx| ==> idx[i] < 10
  }

  /**
   * `generar_patente_chilena`: four letters and two digits when the coin says classic, two
   * letters and four digits otherwise; letters and digits are drawn by index.
   */
  function GeneratePlate(classic: bool, letters: seq<nat>, digits: seq<nat>): (p: string)
    requires LetterIndices(letters) && DigitIndices(digits)
    requires |letters| == (if classic then 4 else 2) && |digits| == (if classic then 2 else 4)
    ensures |p| == 6
    ensures forall i :: 0 <= i < |letters| ==> p[i] == LetterChar(letters[i])
    ensures forall i :: 0 <= i < |digits| ==> p[|letters| + i] == DigitChar(digits[i])
  {
    seq(|letters|, i requires 0 <= i < |letters| => LetterChar(letters[i])) +
    seq(|digits|, i requires 0 <= i < |digits| => DigitChar(digits[i]))
  }

  /**
   * Every generated plate passes `validar_patente_chilena`, in the shape the coin chose and
   * not the other one.
   */
  lemma GeneratedPlateAccepted(classic: bool, letters: seq<nat>, digits: seq<nat>)
    requires LetterIndices(letters) && DigitIndices(digits)
    requires |letters| == (if classic then 4 else 2) && |digits| == (if classic then 2 else 4)
    ensures var p := GeneratePlate(classic, letters, digits);
            ValidatePlate(p) == Valid && (OldPlateShape(p) <==> classic) && (NewPlateShape(p) <==> !classic)
  {
    var p := GeneratePlate(classic, letters, digits);
    if classic {
      assert OldPlateShape(p) by {
        assert forall i :: 4 <= i < 6 ==> p[i] == DigitChar(digits[i - 4]);
      }
      assert !IsDigit(p[2]);
    } else {
      assert NewPlateShape(p) by {
        assert forall i :: 2 <= i < 6 ==> p[i] == DigitChar(digits[i - 2]);
      }
      assert !IsUpper(p[2]);
    }
    ShapedPlateAccepted(p);
  }

  // ---------------------------------------------------------------- parts

  /** `_crear_repuestos`: AGOTADO at zero stock, DISPONIBLE otherwise, even when stock is low. */
  function SeedPartStatus(stock: nat): (s: PartStatus)
    ensures s == Agotado <==> stock == 0
    ensures s != Descontinuado
  {
    if stock == 0 then Agotado else Disponible
  }

  /** A seeded part with one or two units is DISPONIBLE and still on the low-stock list below three. */
  lemma LowSeedStockStaysAvailable(id: nat, code: string, name: string, priceBuy: nat, priceSell: nat, stock: nat)
    requires 0 < stock < 3
    ensures var p := Part(id, code, name, stock, priceBuy, priceSell, SeedPartStatus(stock));
            p.status == Disponible && LowStock([p], 3) == [p]
  {
  }

  // ---------------------------------------------------------------- log entries

  /** One drawn log entry: `random.choice` of a description, `randint(20, 120)` minutes, a progress. */
  datatype LogPick = LogPick(description: string, minutes: nat, progress: Progress)

  /** How many entries the command tries to add: none from four on, else the draw capped at four in all. */
  function SeedLogQuota(existing: nat, drawn: nat): (q: nat)
    ensures existing >= 4 ==> q == 0
    ensures existing < 4 ==> q <= drawn && existing + q <= 4 && (q == drawn || existing + q == 4)
  {
    if existing >= 4 then 0 else if drawn <= 4 - existing then drawn else 4 - existing
  }

  /** The order already has an entry by this mechanic (by key) with this description. */
  predicate DuplicateLog(logs: seq<LogEntry>, m: Mechanic, description: string) {
    exists i :: 0 <= i < |logs| && ByMechanic(logs[i], m) && logs[i].description == description
  }

  /** The entry was written by the mechanic with `m`'s key, as `filter(mecanico=…)` compares. */
  predicate ByMechanic(e: LogEntry, m: Mechanic) {
    e.mechanic.Some? && e.mechanic.value.id == m.id
  }

  /** The inner loop: each pick becomes an entry unless it duplicates one already there. */
  function AddPicks(logs: seq<LogEntry>, m: Mechanic, picks: seq<LogPick>, now: Instant): (r: seq<LogEntry>)
    ensures |logs| <= |r| <= |logs| + |picks| && r[..|logs|] == logs
    ensures forall i :: |logs| <= i < |r| ==> r[i].mechanic == Some(m)
    decreases |picks|
  {
    if picks == [] then logs
    else
      var p := picks[0];
      var next := if DuplicateLog(logs, m, p.description) then logs
                  else logs + [LogEntry(Some(m), now, p.progress, p.description, p.minutes)];
      var r := AddPicks(next, m, picks[1..], now);
      assert r[..|logs|] == next[..|logs|];
      r
  }

  /**
   * `_crear_bitacoras` for one order: orders without a mechanic are skipped; otherwise the
   * first `SeedLogQuota` picks are offered to the order.
   */
  function SeedOrderLogs(o: Order, drawn: nat, picks: seq<LogPick>, now: Instant): (r: seq<LogEntry>)
    requires 1 <= drawn <= 4 && |picks| >= drawn
    ensures o.mechanic.None? || |o.logs| >= 4 ==> r == o.logs
    ensures |o.logs| <= |r| && r[..|o.logs|] == o.logs
    ensures |o.logs| < 4 ==> |r| <= 4
  {
    if o.mechanic.None? then o.logs
    else AddPicks(o.logs, o.mechanic.value, picks[..SeedLogQuota(|o.logs|, drawn)], now)
  }

  /** No mechanic (by key) logged the same description twice on the order. */
  predicate DistinctLogs(logs: seq<LogEntry>) {
    forall i, j :: 0 <= i < j < |logs| && logs[i].mechanic.Some? && ByMechanic(logs[j], logs[i].mechanic.value) ==>
      logs[i].description != logs[j].description
  }

  /** The duplicate check keeps the order's log free of repeated descriptions per mechanic. */
  lemma {:induction false} AddPicksKeepsDistinct(logs: seq<LogEntry>, m: Mechanic, picks: seq<LogPick>, now: Instant)
    requires DistinctLogs(logs)
    ensures DistinctLogs(AddPicks(logs, m, picks, now))
    decreases |picks|
  {
    if picks != [] {
      var p := picks[0];
      if DuplicateLog(logs, m, p.description) {
        AddPicksKeepsDistinct(logs, m, picks[1..], now);
      } else {
        var next := logs + [LogEntry(Some(m), now, p.progress, p.description, p.minutes)];
        assert DistinctLogs(next) by {
          forall i, j | 0 <= i < j < |next| && next[i].mechanic.Some? && next[i].mechanic == next[j].mechanic
            ensures next[i].description != next[j].description
          {
            if j == |logs| {
              assert next[i] == logs[i];
            } else {
              assert next[i] == logs[i] && next[j] == logs[j];
            }
          }
        }
        AddPicksKeepsDistinct(next, m, picks[1..], now);
      }
    }
  }

  /** After the loop, every pick offered is on the order, whether it was added or found there. */
  lemma {:induction false} AddPicksCovers(logs: seq<LogEntry>, m: Mechanic, picks: seq<LogPick>, now: Instant)
    ensures forall k :: 0 <= k < |picks| ==> DuplicateLog(AddPicks(logs, m, picks, now), m, picks[k].description)
    decreases |picks|
  {
    if picks != [] {
      var p := picks[0];
      var next := if DuplicateLog(logs, m, p.description) then logs
                  else logs + [LogEntry(Some(m), now, p.progress, p.description, p.minutes)];
      var r := AddPicks(next, m, picks[1..], now);
      assert DuplicateLog(next, m, p.description) by {
        if !DuplicateLog(logs, m, p.description) {
          assert next[|logs|].mechanic == Some(m) && next[|logs|].description == p.description;
        }
      }
      var i :| 0 <= i < |next| && ByMechanic(next[i], m) && next[i].description == p.description;
      assert r[i] == r[..|next|][i] == next[i];
      AddPicksCovers(next, m, picks[1..], now);
      forall k | 0 <= k < |picks|
        ensures DuplicateLog(r, m, picks[k].description)
      {
        if k > 0 {
          assert picks[k] == picks[1..][k - 1];
        }
      }
    }
  }

  /** Picks that are all already on the order add nothing. */
  lemma {:induction false} AddDuplicatesOnly(logs: seq<LogEntry>, m: Mechanic, picks: seq<LogPick>, now: Instant)
    requires forall k :: 0 <= k < |picks| ==> DuplicateLog(logs, m, picks[k].description)
    ensures AddPicks(logs, m, picks, now) == logs
    decreases |picks|
  {
    if picks != [] {
      assert DuplicateLog(logs, m, picks[0].description);
      assert forall k :: 0 <= k < |picks[1..]| ==> picks[1..][k] == picks[k + 1];
      AddDuplicatesOnly(logs, m, picks[1..], now);
    }
  }

  /** Running the command again with the same draws leaves the order's log as the first run left it. */
  lemma SeedLogsIdempotent(o: Order, drawn: nat, picks: seq<LogPick>, now: Instant, later: Instant)
    requires 1 <= drawn <= 4 && |picks| >= drawn
    ensures var r := SeedOrderLogs(o, drawn, picks, now);
            SeedOrderLogs(o.(logs := r), drawn, picks, later) == r
  {
    var r := SeedOrderLogs(o, drawn, picks, now);
    if o.mechanic.Some? && |o.logs| < 4 {
      var m := o.mechanic.value;
      var q := SeedLogQuota(|o.logs|, drawn);
      var q2 := SeedLogQuota(|r|, drawn);
      AddPicksCovers(o.logs, m, picks[..q], now);
      assert q2 <= q;
      assert forall k :: 0 <= k < q2 ==> picks[..q2][k] == picks[..q][k];
      AddDuplicatesOnly(r, m, picks[..q2], later);
    }
  }

  /** Picks drawn within `randint(20, 120)` minutes. */
  predicate PicksInRange(picks: seq<LogPick>) {
    forall k :: 0 <= k < |picks| ==> 20 <= picks[k].minutes <= 120
  }

  /** Each entry the loop adds carries between 20 and 120 minutes. */
  lemma {:induction false} AddPicksMinutes(logs: seq<LogEntry>, m: Mechanic, picks: seq<LogPick>, now: Instant)
    requires PicksInRange(picks)
    ensures var r := AddPicks(logs, m, picks, now);
            SumMinutes(logs) + 20 * (|r| - |logs|) <= SumMinutes(r) <= SumMinutes(logs) + 120 * (|r| - |logs|)
    decreases |picks|
  {
    if picks != [] {
      var p := picks[0];
      assert PicksInRange(picks[1..]) by {
        assert forall k :: 0 <= k < |picks[1..]| ==> picks[1..][k] == picks[k + 1];
      }
      if DuplicateLog(logs, m, p.description) {
        AddPicksMinutes(logs, m, picks[1..], now);
      } else {
        var e := LogEntry(Some(m), now, p.progress, p.description, p.minutes);
        SumMinutesAppend(logs, [e]);
        assert SumMinutes([e]) == p.minutes;
        AddPicksMinutes(logs + [e], m, picks[1..], now);
      }
    }
  }
}
