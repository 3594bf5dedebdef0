/**
 * Field validators (core/validators.py): the Chilean RUT with its modulo-11 check
 * character, the two licence-plate shapes, and the date and non-negativity guards.
 * A validator either accepts its value or rejects it with the message it would raise.
 */
module Validators {
  import opened Wrappers
  import opened Text
  import opened Models

  datatype Verdict = Valid | Invalid(message: string)

  const RutInvalidMessage: string := "RUT inválido"
  const EstimatedBeforeIntakeMessage: string := "La fecha estimada de entrega debe ser posterior a la fecha de ingreso."
  const PlateInvalidMessage: string := "La patente debe tener formato antiguo (ABCD12) o nuevo (AB1234)."
  const NegativeStockMessage: string := "El stock no puede ser negativo."
  const NegativeMileageMessage: string := "El kilometraje debe ser un número positivo."

  /** Days in the "too old" window of `validar_fecha_no_pasada`. */
  const OldestDateWindow: int := 36500

  // ---------------------------------------------------------------- RUT

  /** The weight applied to the i-th digit counted from the right: 2,3,4,5,6,7,2,3,... */
  function Multiplier(i: nat): (m: nat)
    ensures 2 <= m <= 7
  {
    [2, 3, 4, 5, 6, 7, 2, 3][i % 8]
  }

  /** Weighted sum of the n rightmost digits of `body`. */
  function RutPrefixSum(body: string, n: nat): nat
    requires AllDigits(body) && n <= |body|
  {
    if n == 0 then 0
    else RutPrefixSum(body, n - 1) + DigitValue(body[|body| - n]) * Multiplier(n - 1)
  }

  /** A character the validator allows in check position. */
  predicate IsCheckChar(c: char) {
    IsDigit(c) || c == 'K'
  }

  /** `IsCheckChar` is membership in the validator's "0123456789K". */
  lemma CheckCharSpelled(c: char)
    ensures IsCheckChar(c) <==> c in "0123456789K"
  {
  }

  /** The check character the modulo-11 rule assigns to a digit body. */
  function CheckDigit(body: string): (dv: char)
    requires AllDigits(body)
    ensures dv == 'K' || IsDigit(dv)
    ensures var d := 11 - RutPrefixSum(body, |body|) % 11;
            (d == 11 <==> dv == '0') && (d == 10 <==> dv == 'K') &&
            (d < 10 ==> dv == DigitChar(d))
  {
    var d := 11 - RutPrefixSum(body, |body|) % 11;
    if d == 11 then '0' else if d == 10 then 'K' else DigitChar(d)
  }

  /**
   * The loop both the validator and the seed generator run: walk the reversed body,
   * weighting each digit, then map 11 - (sum mod 11) to a character.
   */
  method ComputeCheckDigit(body: string) returns (dv: char)
    requires AllDigits(body)
    ensures dv == CheckDigit(body)
    ensures IsCheckChar(dv)
  {
    var suma := 0;
    var i := 0;
    while i < |body|
      invariant 0 <= i <= |body|
      invariant suma == RutPrefixSum(body, i)
    {
      suma := suma + DigitValue(body[|body| - 1 - i]) * Multiplier(i);
      i := i + 1;
    }
    var resto := suma % 11;
    var calculado := 11 - resto;
    if calculado == 11 {
      dv := '0';
    } else if calculado == 10 {
      dv := 'K';
    } else {
      dv := DigitChar(calculado);
    }
  }

  /** The RUT with every "." and "-" removed and its letters upper-cased. */
  function CleanRut(v: string): (c: string)
    ensures '.' !in c && '-' !in c
    ensures forall i :: 0 <= i < |c| ==> !IsLower(c[i])
    ensures |c| <= |v|
  {
    var r := Remove(Remove(v, '.'), '-');
    var c := Upper(r);
    assert forall i :: 0 <= i < |c| ==> c[i] != '.' && c[i] != '-' by {
      forall i | 0 <= i < |c| ensures c[i] != '.' && c[i] != '-' {
        assert r[i] in r;
      }
    }
    c
  }

  /** A cleaned RUT of acceptable length: the body is everything but its last character. */
  function RutBody(c: string): string
    requires |c| >= 1
  {
    c[..|c| - 1]
  }

  /** `validar_rut_chileno`. */
  function ValidateRut(v: string): (r: Verdict)
    ensures v == [] ==> r == Valid
    ensures var c := CleanRut(v);
            v != [] && !(8 <= |c| <= 9) ==> r.Invalid?
    ensures var c := CleanRut(v);
            v != [] && 8 <= |c| <= 9 ==>
              (r.Valid? <==> AllDigits(RutBody(c)) && c[|c| - 1] == CheckDigit(RutBody(c)))
    ensures r.Invalid? ==> r.message == RutInvalidMessage
  {
    if v == [] then Valid
    else
      var c := CleanRut(v);
      if |c| < 8 || |c| > 9 then Invalid(RutInvalidMessage)
      else
        var numero := c[..|c| - 1];
        var dv := c[|c| - 1];
        if !AllDigits(numero) then Invalid(RutInvalidMessage)
        else if !IsCheckChar(dv) then Invalid(RutInvalidMessage)
        else if dv != CheckDigit(numero) then Invalid(RutInvalidMessage)
        else Valid
  }

  /** For a given body at most one check character is accepted. */
  lemma RutCheckCharUnique(body: string, c1: char, c2: char)
    requires ValidateRut(body + [c1]) == Valid && ValidateRut(body + [c2]) == Valid
    requires '.' !in body && '-' !in body && forall i :: 0 <= i < |body| ==> !IsLower(body[i])
    requires c1 != '.' && c1 != '-' && c2 != '.' && c2 != '-'
    ensures UpperChar(c1) == UpperChar(c2)
  {
    CleanKnown(body, c1);
    CleanKnown(body, c2);
    assert RutBody(body + [UpperChar(c1)]) == body;
    assert RutBody(body + [UpperChar(c2)]) == body;
  }

  /** Cleaning a body that has nothing to remove, followed by one character. */
  lemma CleanKnown(body: string, c: char)
    requires '.' !in body && '-' !in body && forall i :: 0 <= i < |body| ==> !IsLower(body[i])
    requires c != '.' && c != '-'
    ensures CleanRut(body + [c]) == body + [UpperChar(c)]
  {
    RemoveAbsent(body + [c], '.');
    RemoveAbsent(body + [c], '-');
    assert Upper(body + [c]) == body + [UpperChar(c)];
  }

  /** The check digit of "12345678" is 5 (weighted sum 138, 138 mod 11 = 6). */
  lemma ExampleCheckDigit()
    ensures AllDigits("12345678") && CheckDigit("12345678") == '5'
  {
    var b := "12345678";
    assert AllDigits(b);
    assert RutPrefixSum(b, 1) == 16;
    assert RutPrefixSum(b, 2) == 37;
    assert RutPrefixSum(b, 3) == 61;
    assert RutPrefixSum(b, 4) == 86;
    assert RutPrefixSum(b, 5) == 110;
    assert RutPrefixSum(b, 6) == 131;
    assert RutPrefixSum(b, 7) == 135;
    assert RutPrefixSum(b, 8) == 138;
  }

  /**
   * A body of 7 or 8 digits, a dash and a check character is accepted exactly when the
   * character is the computed one.
   */
  lemma DashedRut(body: string, c: char)
    requires AllDigits(body) && 7 <= |body| <= 8
    requires IsDigit(c) || c == 'K'
    ensures ValidateRut(body + "-" + [c]).Valid? <==> c == CheckDigit(body)
  {
    CleanDashed(body, c);
    var cl := body + [c];
    assert RutBody(cl) == body;
    assert cl[|cl| - 1] == c;
  }

  /** The documented example "12345678-5" passes. */
  lemma RutExampleAccepted()
    ensures ValidateRut("12345678-5") == Valid
  {
    ExampleCheckDigit();
    DashedRut("12345678", '5');
    assert "12345678-5" == "12345678" + "-" + ['5'];
  }

  /** The same body with check digit 0 is refused. */
  lemma RutExampleRejected()
    ensures ValidateRut("12345678-0").Invalid?
  {
    ExampleCheckDigit();
    DashedRut("12345678", '0');
    assert "12345678-0" == "12345678" + "-" + ['0'];
  }

  /** A body of digits, a dash and a check character clean to the body followed by the character. */
  lemma CleanDashed(body: string, c: char)
    requires AllDigits(body) && (IsDigit(c) || c == 'K')
    ensures CleanRut(body + "-" + [c]) == body + [c]
  {
    var v := body + "-" + [c];
    assert v == body + ("-" + [c]);
    RemoveAbsent(v, '.');
    RemoveAppend(body, "-" + [c], '-');
    RemoveAbsent(body, '-');
    assert Remove("-" + [c], '-') == [c] by {
      assert ("-" + [c])[1..] == [c];
      RemoveAbsent([c], '-');
    }
    UpperNoLower(body + [c]);
  }

  lemma UpperNoLower(s: string)
    requires forall i :: 0 <= i < |s| ==> !IsLower(s[i])
    ensures Upper(s) == s
  {
  }

  // ---------------------------------------------------------------- plates

  /** The plate with spaces removed and letters upper-cased. */
  function NormalizePlate(v: string): string {
    Upper(Remove(v, ' '))
  }

  /** `^[A-Z]{4}\d{2}$`: the old four-letters, two-digits shape. */
  predicate OldPlateShape(p: string) {
    |p| == 6 && (forall i :: 0 <= i < 4 ==> IsUpper(p[i])) && (forall i :: 4 <= i < 6 ==> IsDigit(p[i]))
  }

  /** `^[A-Z]{2}\d{4}$`: the new two-letters, four-digits shape. */
  predicate NewPlateShape(p: string) {
    |p| == 6 && (forall i :: 0 <= i < 2 ==> IsUpper(p[i])) && (forall i :: 2 <= i < 6 ==> IsDigit(p[i]))
  }

  /** `validar_patente_chilena`. */
  function ValidatePlate(v: string): (r: Verdict)
    ensures v == [] ==> r == Valid
    ensures v != [] ==> (r.Valid? <==> OldPlateShape(NormalizePlate(v)) || NewPlateShape(NormalizePlate(v)))
    ensures r.Invalid? ==> r.message == PlateInvalidMessage
  {
    if v == [] then Valid
    else
      var p := NormalizePlate(v);
      if OldPlateShape(p) || NewPlateShape(p) then Valid else Invalid(PlateInvalidMessage)
  }

  /** An accepted non-empty plate is six characters: two letters in front, two digits at the end. */
  lemma AcceptedPlateShape(v: string)
    requires v != [] && ValidatePlate(v) == Valid
    ensures var p := NormalizePlate(v);
            |p| == 6 && IsUpper(p[0]) && IsUpper(p[1]) && IsDigit(p[4]) && IsDigit(p[5])
  {
  }

  lemma {:induction false} UpperIdempotent(s: string)
    ensures Upper(Upper(s)) == Upper(s)
  {
    assert |Upper(Upper(s))| == |Upper(s)|;
    forall i | 0 <= i < |s| ensures Upper(Upper(s))[i] == Upper(s)[i] {
    }
  }

  /** Normalising is idempotent, so the verdict does not change once the plate is normalised. */
  lemma PlateNormalizationStable(v: string)
    requires NormalizePlate(v) != []
    ensures NormalizePlate(NormalizePlate(v)) == NormalizePlate(v)
    ensures ValidatePlate(NormalizePlate(v)) == ValidatePlate(v)
  {
    var p := NormalizePlate(v);
    var r := Remove(v, ' ');
    assert forall i :: 0 <= i < |p| ==> p[i] != ' ' by {
      forall i | 0 <= i < |p| ensures p[i] != ' ' {
        assert r[i] in r;
      }
    }
    RemoveAbsent(p, ' ');
    UpperIdempotent(r);
  }

  /** A value made only of spaces is rejected, although the empty value is accepted. */
  lemma BlankPlateRejected(v: string)
    requires v != [] && forall i :: 0 <= i < |v| ==> v[i] == ' '
    ensures ValidatePlate(v).Invalid?
    ensures ValidatePlate("") == Valid
  {
    RemoveOnly(v, ' ');
  }

  lemma {:induction false} RemoveOnly(v: string, c: char)
    requires forall i :: 0 <= i < |v| ==> v[i] == c
    ensures Remove(v, c) == []
    decreases |v|
  {
    if v != [] {
      RemoveOnly(v[1..], c);
    }
  }

  /** A plate already free of spaces and lower-case letters is its own normal form. */
  lemma NormalizedAlready(p: string)
    requires ' ' !in p && forall i :: 0 <= i < |p| ==> !IsLower(p[i])
    ensures NormalizePlate(p) == p
    ensures p != [] ==> (ValidatePlate(p).Valid? <==> OldPlateShape(p) || NewPlateShape(p))
  {
    RemoveAbsent(p, ' ');
    UpperNoLower(p);
  }

  /** Any plate already in one of the two shapes (say "ABCD12" or "AB1234") is accepted. */
  lemma ShapedPlateAccepted(p: string)
    requires OldPlateShape(p) || NewPlateShape(p)
    ensures ValidatePlate(p) == Valid
  {
    assert forall i :: 0 <= i < |p| ==> IsUpper(p[i]) || IsDigit(p[i]);
    NormalizedAlready(p);
  }

  /** Three letters followed by three digits (say "ABC123") is neither shape and is rejected. */
  lemma ThreeThreePlateRejected(p: string)
    requires |p| == 6
    requires forall i :: 0 <= i < 3 ==> IsUpper(p[i])
    requires forall i :: 3 <= i < 6 ==> IsDigit(p[i])
    ensures ValidatePlate(p).Invalid?
  {
    assert forall i :: 0 <= i < |p| ==> IsUpper(p[i]) || IsDigit(p[i]);
    NormalizedAlready(p);
    assert !IsUpper(p[3]) && !IsDigit(p[2]);
  }

  // ---------------------------------------------------------------- dates and amounts

  /** `validar_fecha_no_futura`: a date after today is rejected. */
  function ValidateNotFuture(value: Date, today: Date): (r: Verdict)
    ensures r.Valid? <==> value <= today
  {
    if value > today then Invalid("La fecha no puede ser futura.") else Valid
  }

  /** `validar_fecha_no_pasada`: a date more than 36500 days before today is rejected. */
  function ValidateNotTooOld(value: Date, today: Date): (r: Verdict)
    ensures r.Valid? <==> value >= today - OldestDateWindow
  {
    if value < today - OldestDateWindow then Invalid("La fecha es demasiado antigua.") else Valid
  }

  /**
   * `validar_fecha_estimada_mayor_ingreso`: rejects only when both dates are present and the
   * estimate precedes the intake; an estimate on the intake day passes.
   */
  function ValidateEstimatedAfterIntake(estimated: Option<Date>, intake: Option<Date>): (r: Verdict)
    ensures r.Invalid? <==> estimated.Some? && intake.Some? && estimated.value < intake.value
    ensures r.Invalid? ==> r.message == EstimatedBeforeIntakeMessage
  {
    if estimated.Some? && intake.Some? && estimated.value < intake.value then
      Invalid(EstimatedBeforeIntakeMessage)
    else Valid
  }

  /** `validar_stock_no_negativo`: exactly the negative values are rejected. */
  function ValidateStockNonNegative(value: int): (r: Verdict)
    ensures r.Valid? <==> value >= 0
    ensures r.Invalid? ==> r.message == NegativeStockMessage
  {
    if value < 0 then Invalid(NegativeStockMessage) else Valid
  }

  /** `validar_kilometraje_positivo`: exactly the negative values are rejected, so 0 passes. */
  function ValidateMileage(value: int): (r: Verdict)
    ensures r.Valid? <==> value >= 0
    ensures r.Invalid? ==> r.message == NegativeMileageMessage
  {
    if value < 0 then Invalid(NegativeMileageMessage) else Valid
  }

  /** Both date guards pass exactly on the 36501-day window ending today. */
  lemma DateGuardsWindow(value: Date, today: Date)
    ensures ValidateNotFuture(value, today).Valid? && ValidateNotTooOld(value, today).Valid?
            <==> today - OldestDateWindow <= value <= today
  {
  }
}
