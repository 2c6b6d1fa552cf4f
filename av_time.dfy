/**
 * `convertAVTime`: Alpha Vantage publishes `time_published` in the basic
 * format of ISO 8601 (`YYYYMMDDThhmmss`); the server rewrites it into the
 * extended format (`YYYY-MM-DDThh:mm:ss`) of section 4.3.2 of ISO 8601:2004
 * by cutting fixed fields with `substring`. Nothing is validated, the
 * character at index 8 (the `T`) is never copied, and a short input gives
 * shorter or empty fields rather than an error.
 */
module AVTime {
  import opened Wrappers
  import opened JsValues
  import opened JsText

  /** The template `convertAVTime` fills for a non-empty string. */
  function Reformat(av: string): (r: string)
    ensures 5 <= |r| <= 19
    ensures StartsWith(r, av[..Min(|av|, 4)])
  {
    var year := Substring(av, 0, 4);
    var month := Substring(av, 4, 6);
    var day := Substring(av, 6, 8);
    var time := Substring(av, 9, 15);
    var hour := Substring(time, 0, 2);
    var minute := Substring(time, 2, 4);
    var second := Substring(time, 4, 6);
    year + "-" + month + "-" + day + "T" + hour + ":" + minute + ":" + second
  }

  /**
   * `convertAVTime(avTime)`, with the clock reading `new Date().toISOString()`
   * passed in as `now`. A falsy argument gives `now`; a truthy value that is
   * not a string has no `substring` method, so the call throws.
   */
  function ConvertAVTime(avTime: Value, now: string): (r: Result<string, Exception>)
    ensures !Truthy(avTime) ==> r == Success(now)
    ensures r.Failure? <==> Truthy(avTime) && !avTime.value.JStr?
    ensures avTime.Some? && avTime.value.JStr? && avTime.value.s != "" ==> r == Success(Reformat(avTime.value.s))
  {
    if !Truthy(avTime) then Success(now)
    else
      match avTime.value
      case JStr(s) => Success(Reformat(s))
      case _ => Failure(TypeError)
  }

  /** The characters of `s` from `i` to `j`, each index clamped to the end of `s`. */
  function Field(s: string, i: nat, j: nat): string
    requires i <= j
  {
    s[Min(i, |s|)..Min(j, |s|)]
  }

  /**
   * Each field of the result is the clamped slice of the input at a fixed
   * place: cutting `hh`, `mm`, `ss` out of the six-character time part is
   * the same as cutting them out of the input at offsets 9, 11 and 13.
   */
  lemma ReformatFields(av: string)
    ensures Reformat(av) == Field(av, 0, 4) + "-" + Field(av, 4, 6) + "-" + Field(av, 6, 8) + "T"
                            + Field(av, 9, 11) + ":" + Field(av, 11, 13) + ":" + Field(av, 13, 15)
  {
    assert Substring(av, 9, 15) == Field(av, 9, 15);
    FieldOfField(av, 9, 15, 0, 2);
    FieldOfField(av, 9, 15, 2, 4);
    FieldOfField(av, 9, 15, 4, 6);
  }

  /** Cutting `[a, b)` out of the clamped field `[i, j)` is cutting `[i + a, i + b)` out of `s`. */
  lemma FieldOfField(s: string, i: nat, j: nat, a: nat, b: nat)
    requires a <= b && i + b <= j
    ensures Substring(Field(s, i, j), a, b) == Field(s, i + a, i + b)
  {
    var t := Field(s, i, j);
    if |s| <= i {
      assert t == [];
    } else {
      assert t == s[i..Min(j, |s|)];
      var x, y := Min(a, |t|), Min(b, |t|);
      assert Substring(t, a, b) == t[x..y];
      assert i + x == Min(i + a, |s|) && i + y == Min(i + b, |s|);
      SliceOfSlice(s, i, Min(j, |s|), x, y);
    }
  }

  lemma SliceOfSlice(s: string, a: nat, b: nat, c: nat, d: nat)
    requires a <= b <= |s| && c <= d <= b - a
    ensures s[a..b][c..d] == s[a + c..a + d]
  {
    assert forall k :: 0 <= k < d - c ==> s[a..b][c..d][k] == s[a + c + k];
  }

  /** A short input never fails: the five separators are always there, around clamped fields. */
  lemma ReformatLength(av: string)
    ensures |Reformat(av)| == 5 + Min(|av|, 8) + (if |av| <= 9 then 0 else Min(|av|, 15) - 9)
  {
    ReformatFields(av);
    var date := |Field(av, 0, 4)| + |Field(av, 4, 6)| + |Field(av, 6, 8)|;
    var time := |Field(av, 9, 11)| + |Field(av, 11, 13)| + |Field(av, 13, 15)|;
    var r := Field(av, 0, 4) + "-" + Field(av, 4, 6) + "-" + Field(av, 6, 8) + "T"
             + Field(av, 9, 11) + ":" + Field(av, 11, 13) + ":" + Field(av, 13, 15);
    assert |r| == 5 + date + time;
    assert date == Min(|av|, 8);
    assert time == if |av| <= 9 then 0 else Min(|av|, 15) - 9;
  }

  /**
   * For a 15-character input the result has 19 characters, the separators
   * `-`, `-`, `T`, `:`, `:` at positions 4, 7, 10, 13, 16, and every other
   * character copied from input positions 0-7 and 9-14.
   */
  lemma ExtendedLayout(av: string)
    requires |av| == 15
    ensures var r := Reformat(av);
      && |r| == 19
      && r[4] == '-' && r[7] == '-' && r[10] == 'T' && r[13] == ':' && r[16] == ':'
      && r[..4] == av[..4] && r[5..7] == av[4..6] && r[8..10] == av[6..8]
      && r[11..13] == av[9..11] && r[14..16] == av[11..13] && r[17..] == av[13..]
  {
    ReformatFields(av);
  }

  /** The character at index 8 never reaches the result. */
  lemma SkipsIndexEight(av: string, c: char)
    requires 8 < |av|
    ensures Reformat(av[8 := c]) == Reformat(av)
  {
    var av' := av[8 := c];
    ReformatFields(av);
    ReformatFields(av');
    assert Field(av', 0, 4) == Field(av, 0, 4);
    assert Field(av', 4, 6) == Field(av, 4, 6);
    assert Field(av', 6, 8) == Field(av, 6, 8);
    assert Field(av', 9, 11) == Field(av, 9, 11);
    assert Field(av', 11, 13) == Field(av, 11, 13);
    assert Field(av', 13, 15) == Field(av, 13, 15);
  }

  /** An extended timestamp: 19 characters with the separators in place. */
  predicate IsExtended(e: string)
  {
    |e| == 19 && e[4] == '-' && e[7] == '-' && e[10] == 'T' && e[13] == ':' && e[16] == ':'
  }

  /** Deletes the `-` and `:` separators at positions 4, 7, 13 and 16 of an extended timestamp. */
  function DeleteSeparators(e: string): (r: string)
    requires |e| == 19
    ensures |r| == 15
  {
    e[..4] + e[5..7] + e[8..13] + e[14..16] + e[17..]
  }

  /** The position in the extended form of the character at position `k` of the basic form. */
  function ExtendedPos(k: nat): nat
  {
    k + (if k < 4 then 0 else if k < 6 then 1 else if k < 11 then 2 else if k < 13 then 3 else 4)
  }

  lemma DeleteSeparatorsAt(e: string, k: nat)
    requires |e| == 19 && k < 15
    ensures ExtendedPos(k) < 19 && DeleteSeparators(e)[k] == e[ExtendedPos(k)]
  {
    var a, b, c, d, f := e[..4], e[5..7], e[8..13], e[14..16], e[17..];
    assert DeleteSeparators(e) == (((a + b) + c) + d) + f;
  }

  /** Output position `ExtendedPos(k)` holds input character `k`, for every `k` but 8. */
  lemma ReformatAt(av: string, k: nat)
    requires |av| == 15 && k < 15 && k != 8
    ensures ExtendedPos(k) < |Reformat(av)| && Reformat(av)[ExtendedPos(k)] == av[k]
  {
    ExtendedLayout(av);
    var r := Reformat(av);
    if k < 4 {
      assert r[..4][k] == r[k] && av[..4][k] == av[k];
    } else if k < 6 {
      assert r[5..7][k - 4] == r[k + 1] && av[4..6][k - 4] == av[k];
    } else if k < 8 {
      assert r[8..10][k - 6] == r[k + 2] && av[6..8][k - 6] == av[k];
    } else if k < 11 {
      assert r[11..13][k - 9] == r[k + 2] && av[9..11][k - 9] == av[k];
    } else if k < 13 {
      assert r[14..16][k - 11] == r[k + 3] && av[11..13][k - 11] == av[k];
    } else {
      assert r[17..][k - 13] == r[k + 4] && av[13..][k - 13] == av[k];
    }
  }

  /**
   * Round trip from the basic format: deleting the separators from the
   * result gives back a 15-character input exactly when its index 8 held
   * the `T` that the result writes in its place.
   */
  lemma CompactRoundTrip(av: string)
    requires |av| == 15
    ensures IsExtended(Reformat(av))
    ensures DeleteSeparators(Reformat(av)) == av <==> av[8] == 'T'
  {
    ExtendedLayout(av);
    var r := Reformat(av);
    var d := DeleteSeparators(r);
    DeleteSeparatorsAt(r, 8);
    assert d[8] == 'T';
    forall k | 0 <= k < 15 && k != 8
      ensures d[k] == av[k]
    {
      DeleteSeparatorsAt(r, k);
      ReformatAt(av, k);
    }
    if av[8] == 'T' {
      assert forall k :: 0 <= k < 15 ==> d[k] == av[k];
    }
  }

  /** Round trip from the extended format: rewriting the basic form of an extended timestamp restores it. */
  lemma ExtendedRoundTrip(e: string)
    requires IsExtended(e)
    ensures Reformat(DeleteSeparators(e)) == e
  {
    var av := DeleteSeparators(e);
    ExtendedLayout(av);
    var r := Reformat(av);
    forall p | 0 <= p < 19
      ensures r[p] == e[p]
    {
      if p !in {4, 7, 10, 13, 16} {
        var k := if p < 4 then p else if p < 7 then p - 1 else if p < 13 then p - 2 else if p < 16 then p - 3 else p - 4;
        assert ExtendedPos(k) == p;
        ReformatAt(av, k);
        DeleteSeparatorsAt(e, k);
      }
    }
  }

  /** A well-formed basic timestamp: digits everywhere except the `T` at index 8. */
  predicate IsBasicTimestamp(av: string)
  {
    |av| == 15 && av[8] == 'T' && forall i :: 0 <= i < 15 && i != 8 ==> IsDigit(av[i])
  }

  predicate IsSeparator(c: char) { c == '-' || c == ':' }

  /** Removes every `-` and `:` character, wherever it stands. */
  function StripSeparators(s: string): (r: string)
  {
    if s == [] then []
    else (if IsSeparator(s[0]) then [] else [s[0]]) + StripSeparators(s[1..])
  }

  lemma {:induction false} StripAppend(a: string, b: string)
    ensures StripSeparators(a + b) == StripSeparators(a) + StripSeparators(b)
  {
    if a == [] {
      assert a + b == b;
    } else {
      assert (a + b)[1..] == a[1..] + b;
      StripAppend(a[1..], b);
    }
  }

  lemma {:induction false} StripKeepsDigits(s: string)
    requires AllDigits(s)
    ensures StripSeparators(s) == s
  {
    if s != [] {
      StripKeepsDigits(s[1..]);
    }
  }

  /**
   * For a well-formed basic timestamp, removing every `-` and `:` character
   * from the result reproduces the input: the digits are copied verbatim
   * and only the separators are new.
   */
  lemma StripRoundTrip(av: string)
    requires IsBasicTimestamp(av)
    ensures StripSeparators(Reformat(av)) == av
  {
    ReformatFields(av);
    var y, mo, d, h, mi, s := av[..4], av[4..6], av[6..8], av[9..11], av[11..13], av[13..];
    assert Reformat(av) == y + "-" + mo + "-" + d + "T" + h + ":" + mi + ":" + s;
    assert h[0] == av[9] && h[1] == av[10];
    StripPieces(y, mo, d, h, mi, s);
    assert av == y + mo + d + "T" + h + mi + s;
  }

  lemma {:induction false} StripPieces(y: string, mo: string, d: string, h: string, mi: string, s: string)
    requires AllDigits(y) && AllDigits(mo) && AllDigits(d) && AllDigits(h) && AllDigits(mi) && AllDigits(s)
    ensures StripSeparators(y + "-" + mo + "-" + d + "T" + h + ":" + mi + ":" + s) == y + mo + d + "T" + h + mi + s
  {
    var p2 := y + "-" + mo;
    assert StripSeparators(p2) == y + mo by { StripKeepsDigits(y); StripStep(y, "-", mo); }
    var p3 := p2 + "-" + d;
    assert StripSeparators(p3) == y + mo + d by { StripStep(p2, "-", d); }
    var p4 := p3 + "T" + h;
    assert StripSeparators(p4) == y + mo + d + "T" + h by { StripStep(p3, "T", h); }
    var p5 := p4 + ":" + mi;
    assert StripSeparators(p5) == y + mo + d + "T" + h + mi by { StripStep(p4, ":", mi); }
    StripStep(p5, ":", s);
  }

  /** One one-character separator and one field of digits appended to a prefix. */
  lemma {:induction false} StripStep(p: string, sep: string, q: string)
    requires |sep| == 1 && AllDigits(q)
    ensures StripSeparators(p + sep + q) == StripSeparators(p) + (if IsSeparator(sep[0]) then "" else sep) + q
  {
    StripAppend(p + sep, q);
    StripAppend(p, sep);
    StripKeepsDigits(q);
    assert StripSeparators(sep) == (if IsSeparator(sep[0]) then "" else sep) + StripSeparators(sep[1..]);
  }

  /** The falsy inputs, an absent or empty `time_published` among them, give the clock reading unchanged. */
  lemma FalsyGivesNow(avTime: Value, now: string)
    requires avTime in {None, Some(JNull), Some(JStr("")), Some(JBool(false)), Some(JNum(0.0))}
    ensures ConvertAVTime(avTime, now) == Success(now)
  {
  }

  /** The conversion of a typical basic-format timestamp. */
  lemma ConvertExample(now: string)
    ensures ConvertAVTime(Some(JStr("20240115T093000")), now) == Success("2024-01-15T09:30:00")
  {
    var av := "20240115T093000";
    ReformatFields(av);
    assert Field(av, 0, 4) == "2024" && Field(av, 4, 6) == "01" && Field(av, 6, 8) == "15";
    assert Field(av, 9, 11) == "09" && Field(av, 11, 13) == "30" && Field(av, 13, 15) == "00";
    assert "2024" + "-" + "01" + "-" + "15" + "T" + "09" + ":" + "30" + ":" + "00" == "2024-01-15T09:30:00";
  }
}
