/**
 * `formatDateForAPI`: turns a `dd-mm-yyyy` or `dd/mm/yyyy` string into the
 * `yyyy-mm-dd` layout of the `full-date` production in section 5.6 of
 * RFC 3339. It only splits and reorders: the parts are neither checked for
 * digits nor range-checked, and only the year part's length is looked at.
 */
module Dates {
  import opened JsValues
  import opened Strings

  /** A character matched by the class `[-/]`. */
  predicate IsSeparator(c: char)
  {
    c == '-' || c == '/'
  }

  predicate NoSeparator(s: string)
  {
    forall i :: 0 <= i < |s| ==> !IsSeparator(s[i])
  }

  /** `s.split(/[-/]/)`: the maximal separator-free pieces, empty pieces included. */
  function Split(s: string): (parts: seq<string>)
    ensures |parts| >= 1
    ensures forall k :: 0 <= k < |parts| ==> NoSeparator(parts[k])
  {
    if s == [] then [""]
    else if IsSeparator(s[0]) then [""] + Split(s[1..])
    else
      var rest := Split(s[1..]);
      [[s[0]] + rest[0]] + rest[1..]
  }

  /** A string without separators is a single piece. */
  lemma {:induction false} SplitNoSeparator(s: string)
    requires NoSeparator(s)
    ensures Split(s) == [s]
  {
    if s != [] {
      SplitNoSeparator(s[1..]);
      assert [s[0]] + s[1..] == s;
    }
  }

  /** Splitting `a`, a separator, then `b` gives `a` followed by the pieces of `b`. */
  lemma {:induction false} SplitAfterPiece(a: string, c: char, b: string)
    requires NoSeparator(a) && IsSeparator(c)
    ensures Split(a + [c] + b) == [a] + Split(b)
  {
    var s := a + [c] + b;
    if a == [] {
      assert s == [c] + b;
      assert s[1..] == b;
    } else {
      assert s[1..] == a[1..] + [c] + b;
      SplitAfterPiece(a[1..], c, b);
      assert [a[0]] + a[1..] == a;
    }
  }

  /** Joining a list whose first piece is `first`. */
  lemma JoinCons(first: string, rest: seq<string>, sep: string)
    ensures Join([first] + rest, sep) == if rest == [] then first else first + sep + Join(rest, sep)
  {
    assert ([first] + rest)[1..] == rest;
  }

  /** Putting a character in front of the first piece puts it in front of the joined text. */
  lemma PrependToFirst(c: char, rest: seq<string>, sep: string)
    requires |rest| >= 1
    ensures Join([[c] + rest[0]] + rest[1..], sep) == [c] + Join(rest, sep)
  {
    JoinCons([c] + rest[0], rest[1..], sep);
    JoinCons(rest[0], rest[1..], sep);
    assert rest == [rest[0]] + rest[1..];
  }

  /** Joining the pieces with `-` gives back the input with every `/` turned into `-`. */
  lemma {:induction false} JoinSplit(s: string)
    ensures Join(Split(s), "-") == ReplaceChar(s, '/', '-')
  {
    if s != [] {
      JoinSplit(s[1..]);
      var rest := Split(s[1..]);
      var tail := ReplaceChar(s[1..], '/', '-');
      assert ReplaceChar(s, '/', '-') == [if s[0] == '/' then '-' else s[0]] + tail;
      if IsSeparator(s[0]) {
        JoinCons("", rest, "-");
      } else {
        PrependToFirst(s[0], rest, "-");
      }
    }
  }

  /**
   * The converted date, or `''` for a falsy or non-string input or when the
   * input does not split into exactly three pieces with a four-character last
   * piece.
   */
  function FormatDateForApi(v: JsValue): (r: string)
    ensures (!Truthy(v) || !v.Str?) ==> r == ""
    ensures v.Str? && (|Split(v.s)| != 3 || |Split(v.s)[2]| != 4) ==> r == ""
    ensures v.Str? && |Split(v.s)| == 3 && |Split(v.s)[2]| == 4 ==>
      var p := Split(v.s); r == p[2] + "-" + p[1] + "-" + p[0]
    ensures r != "" ==> |r| >= 6
  {
    if !Truthy(v) || !v.Str? then ""
    else
      var parts := Split(v.s);
      if |parts| != 3 || |parts[2]| != 4 then ""
      else parts[2] + "-" + parts[1] + "-" + parts[0]
  }

  /** The year-month-day pieces of a non-empty result, in the order they were read. */
  lemma {:induction false} FormatSplitsBack(v: JsValue)
    requires FormatDateForApi(v) != ""
    ensures var p := Split(v.s);
      Split(FormatDateForApi(v)) == [p[2], p[1], p[0]]
  {
    var p := Split(v.s);
    var r := FormatDateForApi(v);
    assert r == p[2] + ['-'] + (p[1] + ['-'] + p[0]);
    SplitAfterPiece(p[2], '-', p[1] + ['-'] + p[0]);
    SplitAfterPiece(p[1], '-', p[0]);
    SplitNoSeparator(p[0]);
  }

  /**
   * Feeding a result back in: the day piece now stands where the year was
   * expected, so the second call gives `''` unless the day piece has four
   * characters, and otherwise swaps the pieces back.
   */
  lemma FormatTwice(v: JsValue)
    requires FormatDateForApi(v) != ""
    ensures var p := Split(v.s);
      FormatDateForApi(Str(FormatDateForApi(v))) ==
        if |p[0]| == 4 then p[0] + "-" + p[1] + "-" + p[2] else ""
  {
    FormatSplitsBack(v);
  }

  /**
   * A `dd-mm-yyyy` or `dd/mm/yyyy` date (or one mixing the two separators)
   * converts to `yyyy-mm-dd`.
   */
  lemma FormatDayMonthYear(day: string, c1: char, month: string, c2: char, year: string)
    requires NoSeparator(day) && NoSeparator(month) && NoSeparator(year)
    requires IsSeparator(c1) && IsSeparator(c2)
    requires |year| == 4
    ensures FormatDateForApi(Str(day + [c1] + month + [c2] + year)) == year + "-" + month + "-" + day
  {
    var s := day + [c1] + month + [c2] + year;
    assert s == day + [c1] + (month + [c2] + year);
    SplitAfterPiece(day, c1, month + [c2] + year);
    SplitAfterPiece(month, c2, year);
    SplitNoSeparator(year);
    assert Split(s) == [day, month, year];
  }
}
