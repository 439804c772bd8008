/** The booking form's per-field check: the value is trimmed, an empty value
    is rejected as required, and e-mail and telephone fields must match their
    patterns. A date field is rejected when it lies before today; that
    comparison is made by the browser's clock and is a parameter here. */
module FormValidation {
  import opened Text

  /** The input types the validator distinguishes; every other type only has to
      be non-empty. */
  datatype FieldKind = EmailField | TelField | DateField | OtherField

  datatype Verdict = Valid | Invalid(message: string)

  const RequiredMessage: string := "Este campo es obligatorio"
  const EmailMessage: string := "Ingrese un email válido"
  const PhoneMessage: string := "Ingrese un teléfono válido"
  const DateMessage: string := "La fecha debe ser posterior a hoy"

  /** A character of the class `[^\s@]`. */
  predicate EmailChar(c: char) {
    !IsJsSpace(c) && c != '@'
  }

  /** Positions `lo` up to `hi` of `v` are one or more characters of
      `[^\s@]`. */
  predicate EmailRun(v: string, lo: int, hi: int)
    requires 0 <= lo && hi <= |v|
  {
    lo < hi && forall i :: lo <= i < hi ==> EmailChar(v[i])
  }

  /** The pattern `^[^\s@]+@[^\s@]+\.[^\s@]+$`, stated by where its `@` and
      its `.` fall: three non-empty runs of `[^\s@]` separated by them. */
  predicate MatchesEmailPattern(v: string) {
    exists p, q :: 0 < p && p + 1 < q < |v| - 1 && v[p] == '@' && v[q] == '.'
      && EmailRun(v, 0, p) && EmailRun(v, p + 1, q) && EmailRun(v, q + 1, |v|)
  }

  predicate NoSpace(s: string) {
    forall i :: 0 <= i < |s| ==> !IsJsSpace(s[i])
  }

  /** The e-mail test as a scan: no whitespace, a non-empty local part up to the
      first `@`, no second `@`, and a `.` strictly inside the domain. */
  predicate IsEmail(v: string) {
    var p := |BeforeFirst(v, '@')|;
    && 0 < p < |v| - 3
    && NoSpace(v)
    && |BeforeFirst(v[p + 1..], '@')| == |v| - p - 1
    && Contains(v[p + 2..|v| - 1], ".")
  }

  /** The scan accepts exactly the strings the pattern matches. */
  lemma IsEmailIffPattern(v: string)
    ensures IsEmail(v) <==> MatchesEmailPattern(v)
  {
    if IsEmail(v) {
      EmailScanMatches(v);
    }
    if MatchesEmailPattern(v) {
      EmailPatternScans(v);
    }
  }

  /** Past the first `@`, the scan's second look finds no other. */
  lemma NoAtAfter(v: string, p: nat)
    requires p < |v| && |BeforeFirst(v[p + 1..], '@')| == |v| - p - 1
    ensures forall k :: p < k < |v| ==> v[k] != '@'
  {
    var d := v[p + 1..];
    var r := BeforeFirst(d, '@');
    assert r == d;
    forall k | p < k < |v| ensures v[k] != '@' {
      assert v[k] == d[k - p - 1] == r[k - p - 1];
    }
  }

  lemma EmailScanMatches(v: string)
    requires IsEmail(v)
    ensures MatchesEmailPattern(v)
  {
    var local := BeforeFirst(v, '@');
    var p := |local|;
    assert forall k :: 0 <= k < p ==> v[k] == local[k];
    NoAtAfter(v, p);
    var middle := v[p + 2..|v| - 1];
    ContainsIffOccurs(middle, ".");
    var i :| OccursAt(middle, ".", i);
    assert middle[i] == middle[i..i + 1][0] == '.';
    var q := p + 2 + i;
    assert v[q] == '.';
    assert EmailRun(v, 0, p) && EmailRun(v, p + 1, q) && EmailRun(v, q + 1, |v|);
  }

  lemma EmailPatternScans(v: string)
    requires MatchesEmailPattern(v)
    ensures IsEmail(v)
  {
    var p, q :| 0 < p && p + 1 < q < |v| - 1 && v[p] == '@' && v[q] == '.'
      && EmailRun(v, 0, p) && EmailRun(v, p + 1, q) && EmailRun(v, q + 1, |v|);
    EmailPartsScan(v, p, q);
  }

  /** The scan accepts the three runs the pattern matched. */
  lemma EmailPartsScan(v: string, p: nat, q: nat)
    requires 0 < p && p + 1 < q < |v| - 1 && v[p] == '@' && v[q] == '.'
    requires EmailRun(v, 0, p) && EmailRun(v, p + 1, q) && EmailRun(v, q + 1, |v|)
    ensures IsEmail(v)
  {
    assert |BeforeFirst(v, '@')| == p by {
      FirstAt(v, p);
    }
    assert |BeforeFirst(v[p + 1..], '@')| == |v| - p - 1 by {
      LastAt(v, p);
    }
    assert Contains(v[p + 2..|v| - 1], ".") by {
      DotInside(v, p, q);
    }
    assert NoSpace(v) by {
      RunsHaveNoSpace(v, p, q);
    }
  }

  /** Three runs of `[^\s@]` joined by `@` and `.` hold no whitespace. */
  lemma RunsHaveNoSpace(v: string, p: nat, q: nat)
    requires p < q < |v| && v[p] == '@' && v[q] == '.'
    requires EmailRun(v, 0, p) && EmailRun(v, p + 1, q) && EmailRun(v, q + 1, |v|)
    ensures NoSpace(v)
  {
    forall i | 0 <= i < |v| ensures !IsJsSpace(v[i]) {
      if i != p && i != q {
        assert EmailChar(v[i]);
      }
    }
  }

  /** An `@` with none before it ends the local part. */
  lemma FirstAt(v: string, p: nat)
    requires p < |v| && v[p] == '@' && forall k :: 0 <= k < p ==> v[k] != '@'
    ensures |BeforeFirst(v, '@')| == p
  {
    assert v == v[..p] + ['@'] + v[p + 1..];
    BeforeFirstOfJoin(v[..p], '@', v[p + 1..]);
  }

  /** With no `@` after position `p`, the second scan takes the whole rest. */
  lemma LastAt(v: string, p: nat)
    requires p < |v| && forall k :: p < k < |v| ==> v[k] != '@'
    ensures |BeforeFirst(v[p + 1..], '@')| == |v| - p - 1
  {
    var domain := v[p + 1..];
    assert forall k :: 0 <= k < |domain| ==> domain[k] == v[p + 1 + k];
    BeforeFirstOfFree(domain, '@');
  }

  /** A `.` strictly inside the domain is found by the scan. */
  lemma DotInside(v: string, p: nat, q: nat)
    requires p + 1 < q < |v| - 1 && v[q] == '.'
    ensures Contains(v[p + 2..|v| - 1], ".")
  {
    var middle := v[p + 2..|v| - 1];
    assert middle[q - p - 2..q - p - 1] == [v[q]];
    assert OccursAt(middle, ".", q - p - 2);
    ContainsIffOccurs(middle, ".");
  }

  /** A character of the class `[\d\s\-\(\)]`; `\d` is ASCII digits only. */
  predicate PhoneChar(c: char) {
    IsAsciiDigit(c) || IsJsSpace(c) || c == '-' || c == '(' || c == ')'
  }

  /** Positions `k` onward of `v` are at least eight characters of the
      class. */
  predicate PhoneTail(v: string, k: nat) {
    |v| >= k + 8 && forall i :: k <= i < |v| ==> PhoneChar(v[i])
  }

  /** The pattern `^[\+]?[\d\s\-\(\)]{8,}$`: at least eight characters of the
      class, with or without a plus sign before them. */
  predicate MatchesPhonePattern(v: string) {
    PhoneTail(v, 0) || (|v| > 0 && v[0] == '+' && PhoneTail(v, 1))
  }

  /** How many characters at the start of `s` belong to the class. */
  function PhoneRun(s: string): (n: nat)
    ensures n <= |s|
    ensures forall i :: 0 <= i < n ==> PhoneChar(s[i])
    ensures n < |s| ==> !PhoneChar(s[n])
  {
    if |s| > 0 && PhoneChar(s[0]) then 1 + PhoneRun(s[1..]) else 0
  }

  /** The phone test as a scan: drop one leading plus sign, then the whole rest must
      be class characters, at least eight of them. */
  predicate IsPhone(v: string) {
    var body := if |v| > 0 && v[0] == '+' then v[1..] else v;
    PhoneRun(body) == |body| && |body| >= 8
  }

  /** The scan accepts exactly the strings the pattern matches. */
  lemma IsPhoneIffPattern(v: string)
    ensures IsPhone(v) <==> MatchesPhonePattern(v)
  {
    var k := if |v| > 0 && v[0] == '+' then 1 else 0;
    var body := v[k..];
    assert forall i :: k <= i < |v| ==> v[i] == body[i - k];
    if k == 1 {
      assert !PhoneChar(v[0]);
      assert !PhoneTail(v, 0);
    }
  }

  /** `validateField`. `beforeToday` is whether the browser's date comparison
      put the value before today (false for an unparseable date, whose
      comparison is false). */
  function ValidateField(kind: FieldKind, raw: string, beforeToday: bool): Verdict {
    var value := Trim(raw);
    if value == "" then Invalid(RequiredMessage)
    else match kind
      case EmailField => if IsEmail(value) then Valid else Invalid(EmailMessage)
      case TelField => if IsPhone(value) then Valid else Invalid(PhoneMessage)
      case DateField => if beforeToday then Invalid(DateMessage) else Valid
      case OtherField => Valid
  }

  /** A field is accepted exactly when its trimmed value is non-empty and
      matches its type's pattern; an all-whitespace value is rejected as
      required whatever the type. */
  lemma ValidateFieldSpec(kind: FieldKind, raw: string, beforeToday: bool)
    ensures AllSpace(raw) ==> ValidateField(kind, raw, beforeToday) == Invalid(RequiredMessage)
    ensures ValidateField(kind, raw, beforeToday) == Valid <==>
      && !AllSpace(raw)
      && (kind == EmailField ==> MatchesEmailPattern(Trim(raw)))
      && (kind == TelField ==> MatchesPhonePattern(Trim(raw)))
      && (kind == DateField ==> !beforeToday)
  {
    TrimEmptyIffAllSpace(raw);
    IsEmailIffPattern(Trim(raw));
    IsPhoneIffPattern(Trim(raw));
  }
}
