/**
 * `CoordinateInputFields`: which keystrokes a coordinate text field accepts
 * and when the submit button is enabled. Both fields use the pattern
 * `^-?\d*\.?\d*$`, where `\d` is an ASCII digit; `Matches` recognises it with
 * a three-state scanner, and the lemmas relate the scanner to the pattern's
 * language and to a per-character description.
 */
module CoordinateInputFields {
  import opened Kotlin

  predicate AllDigits(t: string) {
    forall i :: 0 <= i < |t| ==> IsDigit(t[i])
  }

  /** `sign + whole + point + fraction`: one way of reading a value against the pattern. */
  function Parts(sign: string, whole: string, point: string, fraction: string): string {
    sign + whole + point + fraction
  }

  /** The language of `^-?\d*\.?\d*$`: an optional minus, digits, an optional point, digits. */
  ghost predicate InCoordinatePattern(s: string) {
    exists sign, whole, point, fraction :: s == Parts(sign, whole, point, fraction)
      && (sign == "" || sign == "-") && AllDigits(whole)
      && (point == "" || point == ".") && AllDigits(fraction)
  }

  /**
   * The scanner's position in the pattern: before the optional minus, in the
   * digits before the point, or after the point.
   */
  datatype Scan = Start | Whole | Fraction

  /** Runs the scanner over `t` from `state`; every state accepts at the end. */
  function Run(state: Scan, t: string): (ok: bool)
    decreases |t|
  {
    if t == [] then true
    else if IsDigit(t[0]) then Run(if state == Fraction then Fraction else Whole, t[1..])
    else if t[0] == '.' && state != Fraction then Run(Fraction, t[1..])
    else if t[0] == '-' && state == Start then Run(Whole, t[1..])
    else false
  }

  /** `value.matches(Regex("^-?\\d*\\.?\\d*$"))`. */
  function Matches(value: string): (ok: bool)
    ensures ok <==> InCoordinatePattern(value)
  {
    MatchesIsPattern(value);
    Run(Start, value)
  }

  // ---- the scanner against the pattern ----

  /** Digits leave the scanner where it was, once past the start. */
  lemma {:induction false} RunDigits(state: Scan, digits: string, rest: string)
    requires state != Start && AllDigits(digits)
    ensures Run(state, digits + rest) == Run(state, rest)
    decreases |digits|
  {
    if digits != [] {
      var t := digits + rest;
      assert t[0] == digits[0] && IsDigit(t[0]);
      assert t[1..] == digits[1..] + rest;
      assert AllDigits(digits[1..]) by {
        forall i | 0 <= i < |digits[1..]| ensures IsDigit(digits[1..][i]) {
          assert digits[1..][i] == digits[i + 1];
        }
      }
      assert (if state == Fraction then Fraction else Whole) == state;
      assert Run(state, t) == Run(state, t[1..]);
      RunDigits(state, digits[1..], rest);
    } else {
      assert digits + rest == rest;
    }
  }

  /** No minus in front: the start behaves like the digits before the point. */
  lemma {:induction false} StartAsWhole(t: string)
    requires t == [] || t[0] != '-'
    ensures Run(Start, t) == Run(Whole, t)
  {
  }

  /** A value the scanner accepts from `Whole`, cut into its parts. */
  lemma {:induction false} WholeParts(t: string) returns (whole: string, point: string, fraction: string)
    requires Run(Whole, t)
    ensures t == whole + point + fraction
    ensures AllDigits(whole) && (point == "" || point == ".") && AllDigits(fraction)
    decreases |t|
  {
    if t == [] {
      whole, point, fraction := "", "", "";
    } else if IsDigit(t[0]) {
      var w, p, f := WholeParts(t[1..]);
      whole, point, fraction := [t[0]] + w, p, f;
      assert t == [t[0]] + t[1..];
    } else {
      assert t[0] == '.';
      RunFractionDigits(t[1..]);
      whole, point, fraction := "", ".", t[1..];
      assert t == [t[0]] + t[1..];
    }
  }

  lemma {:induction false} MatchesIsPattern(s: string)
    ensures Run(Start, s) <==> InCoordinatePattern(s)
  {
    if Run(Start, s) {
      var sign, rest := "", s;
      if s != [] && s[0] == '-' {
        sign, rest := "-", s[1..];
      } else {
        StartAsWhole(s);
      }
      var whole, point, fraction := WholeParts(rest);
      assert s == Parts(sign, whole, point, fraction);
    }
    if InCoordinatePattern(s) {
      var sign, whole, point, fraction :| s == Parts(sign, whole, point, fraction)
        && (sign == "" || sign == "-") && AllDigits(whole)
        && (point == "" || point == ".") && AllDigits(fraction);
      PartsRun(sign, whole, point, fraction);
    }
  }

  /** The scanner accepts every reading of the pattern. */
  lemma {:induction false} PartsRun(sign: string, whole: string, point: string, fraction: string)
    requires (sign == "" || sign == "-") && AllDigits(whole)
    requires (point == "" || point == ".") && AllDigits(fraction)
    ensures Run(Start, Parts(sign, whole, point, fraction))
  {
    var s := Parts(sign, whole, point, fraction);
    var rest := whole + (point + fraction);
    assert s == sign + rest;
    RunPointDigits(point, fraction);
    RunDigits(Whole, whole, point + fraction);
    if sign == "-" {
      assert s[0] == '-' && s[1..] == rest;
    } else {
      assert s == rest;
      if whole != [] {
        assert rest[0] == whole[0];
      } else if point != [] {
        assert rest[0] == point[0];
      } else if fraction != [] {
        assert rest == fraction;
      }
      StartAsWhole(s);
    }
  }

  /** The scanner, past the whole digits, accepts an optional point followed by digits. */
  lemma {:induction false} RunPointDigits(point: string, fraction: string)
    requires (point == "" || point == ".") && AllDigits(fraction)
    ensures Run(Whole, point + fraction)
  {
    if point == "." {
      assert (point + fraction)[0] == '.' && (point + fraction)[1..] == fraction;
      RunFractionDigits(fraction);
    } else {
      assert point + fraction == fraction + "";
      RunDigits(Whole, fraction, "");
    }
  }

  // ---- the scanner against a per-character description ----

  /** Digits and points, with at most one point. */
  predicate DigitsWithOnePoint(t: string) {
    && (forall i :: 0 <= i < |t| ==> IsDigit(t[i]) || t[i] == '.')
    && (forall i, j :: 0 <= i < j < |t| && t[i] == '.' ==> t[j] != '.')
  }

  lemma {:induction false} RunFractionDigits(t: string)
    ensures Run(Fraction, t) <==> AllDigits(t)
    decreases |t|
  {
    if t != [] {
      RunFractionDigits(t[1..]);
      assert AllDigits(t) <==> IsDigit(t[0]) && AllDigits(t[1..]) by {
        if IsDigit(t[0]) && AllDigits(t[1..]) {
          forall i | 0 <= i < |t| ensures IsDigit(t[i]) {
            if i > 0 { assert t[i] == t[1..][i - 1]; }
          }
        }
      }
    }
  }

  lemma {:induction false} RunWholeDigitsWithOnePoint(t: string)
    ensures Run(Whole, t) <==> DigitsWithOnePoint(t)
    decreases |t|
  {
    if t == [] {
    } else if IsDigit(t[0]) {
      RunWholeDigitsWithOnePoint(t[1..]);
      var u := t[1..];
      assert DigitsWithOnePoint(t) <==> DigitsWithOnePoint(u) by {
        if DigitsWithOnePoint(u) {
          forall i | 0 <= i < |t| ensures IsDigit(t[i]) || t[i] == '.' {
            if i > 0 { assert t[i] == u[i - 1]; }
          }
          forall i, j | 0 <= i < j < |t| && t[i] == '.' ensures t[j] != '.' {
            assert i > 0;
            assert t[i] == u[i - 1] && t[j] == u[j - 1];
          }
        }
        if DigitsWithOnePoint(t) {
          forall i | 0 <= i < |u| ensures IsDigit(u[i]) || u[i] == '.' {
            assert u[i] == t[i + 1];
          }
          forall i, j | 0 <= i < j < |u| && u[i] == '.' ensures u[j] != '.' {
            assert u[i] == t[i + 1] && u[j] == t[j + 1];
          }
        }
      }
    } else if t[0] == '.' {
      RunFractionDigits(t[1..]);
      var u := t[1..];
      assert DigitsWithOnePoint(t) <==> AllDigits(u) by {
        if AllDigits(u) {
          forall i | 0 <= i < |t| ensures IsDigit(t[i]) || t[i] == '.' {
            if i > 0 { assert t[i] == u[i - 1]; }
          }
          forall i, j | 0 <= i < j < |t| && t[i] == '.' ensures t[j] != '.' {
            assert t[j] == u[j - 1];
            if i > 0 { assert t[i] == u[i - 1]; }
          }
        }
        if DigitsWithOnePoint(t) {
          forall i | 0 <= i < |u| ensures IsDigit(u[i]) {
            assert u[i] == t[i + 1];
            assert t[0] == '.' && 0 < i + 1;
          }
        }
      }
    } else {
      assert !DigitsWithOnePoint(t) by {
        assert !(IsDigit(t[0]) || t[0] == '.');
      }
    }
  }

  /**
   * The characters of an accepted value: a `-` only at index 0, at most one
   * `.`, and ASCII digits everywhere else. The converse holds too: this is
   * exactly what the pattern accepts.
   */
  lemma {:induction false} MatchesCharacters(s: string)
    ensures Matches(s) <==>
      && (forall i :: 0 <= i < |s| ==> IsDigit(s[i]) || s[i] == '.' || (s[i] == '-' && i == 0))
      && (forall i, j :: 0 <= i < j < |s| && s[i] == '.' ==> s[j] != '.')
  {
    if s != [] && s[0] == '-' {
      var u := s[1..];
      RunWholeDigitsWithOnePoint(u);
      assert Run(Start, s) == Run(Whole, u);
      forall i | 0 < i < |s| ensures s[i] == u[i - 1] { }
    } else {
      StartAsWhole(s);
      RunWholeDigitsWithOnePoint(s);
    }
  }

  /** Every prefix of a value the scanner accepts is accepted. */
  lemma {:induction false} RunPrefix(state: Scan, s: string, p: string)
    requires Run(state, s) && p <= s
    ensures Run(state, p)
    decreases |p|
  {
    if p != [] {
      assert p[0] == s[0] && p[1..] <= s[1..];
      var next := if IsDigit(s[0]) then (if state == Fraction then Fraction else Whole)
        else if s[0] == '.' then Fraction else Whole;
      RunPrefix(next, s[1..], p[1..]);
    }
  }

  /**
   * Acceptance is prefix-closed: deleting characters from the end of an
   * accepted value never makes it rejected.
   */
  lemma {:induction false} MatchesPrefixClosed(s: string, p: string)
    requires Matches(s) && p <= s
    ensures Matches(p)
  {
    RunPrefix(Start, s, p);
  }

  /** A lone minus, a lone point and `-.` are accepted although they hold no digit. */
  lemma {:induction false} AcceptedWithoutDigits()
    ensures Matches("-") && Matches(".") && Matches("-.")
    ensures forall s :: s in ["-", ".", "-."] ==> forall i :: 0 <= i < |s| ==> !IsDigit(s[i])
  {
  }

  /** Some values the fields take or refuse. */
  lemma {:induction false} SampleValues()
    ensures Matches("") && Matches("59.3") && Matches("-18.")
    ensures !Matches("1-") && !Matches("1.2.") && !Matches("--") && !Matches("a") && !Matches(" 1")
  {
  }

  // ---- the field and the button ----

  /**
   * `onValueChange`: the new text is passed to the caller when it is empty or
   * matches the pattern; otherwise the field keeps its current value.
   */
  function OnValueChange(current: string, value: string): (next: string)
    ensures value == "" || Matches(value) ==> next == value
    ensures !(value == "" || Matches(value)) ==> next == current
  {
    if value == "" || Matches(value) then value else current
  }

  /**
   * A field that starts empty and changes only through `OnValueChange` always
   * holds an accepted value.
   */
  lemma {:induction false} FieldStaysAccepted(current: string, value: string)
    requires Matches(current)
    ensures Matches(OnValueChange(current, value))
  {
  }

  /** An empty value is already in the pattern, so the emptiness test adds nothing. */
  lemma {:induction false} EmptyTestRedundant(current: string, value: string)
    ensures OnValueChange(current, value) == (if Matches(value) then value else current)
  {
  }

  /** `enabled = latitude.isNotEmpty() && longitude.isNotEmpty()`. */
  function SubmitEnabled(latitude: string, longitude: string): (enabled: bool)
    ensures enabled <==> |latitude| > 0 && |longitude| > 0
  {
    latitude != "" && longitude != ""
  }

  /** The button can be enabled by two fields that hold no number. */
  lemma {:induction false} EnabledWithoutNumbers()
    ensures SubmitEnabled(OnValueChange("", "-"), OnValueChange("", "."))
    ensures OnValueChange("", "-") == "-" && OnValueChange("", ".") == "."
  {
  }
}
