/** Selecting the listed files that belong to days after the last archived one
  * (`remove_older_files`). Data files are named `YYYY/MM/DD/<file>`. */
module FileFilter {
  import opened Wrappers
  import opened Strings
  import opened Decimal
  import opened Dates
  import opened DateText

  /** `int(year, 10), int(month, 10), int(day, 10)` for a name that gets that far: at least
    * three `/`, and a first, second and third segment of digits. `fname.split('/', 3)` has the
    * same first three fields as the full split once the name holds at least three `/`. */
  function DateArgs(fname: string): (r: Option<(int, int, int)>)
    ensures Count(fname, '/') < 3 ==> r.None?
    ensures r.Some? ==> r.value.0 >= 0 && r.value.1 >= 0 && r.value.2 >= 0
  {
    if Count(fname, '/') < 3 then None
    else
      SplitLength(fname, '/');
      var parts := Split(fname, '/');
      if !(IsDigits(parts[0]) && IsDigits(parts[1]) && IsDigits(parts[2])) then None
      else Some((Value(parts[0]), Value(parts[1]), Value(parts[2])))
  }

  /** `datetime.date` raises `OverflowError` on the name, which `remove_older_files` does not
    * catch: the generator stops there. */
  predicate OverflowsAt(fname: string) {
    match DateArgs(fname)
    case Some((y, m, d)) => Overflows(y, m, d)
    case None => false
  }

  /** No name of `files` makes the generator raise. */
  predicate NoOverflow(files: seq<string>) {
    forall j :: 0 <= j < |files| ==> !OverflowsAt(files[j])
  }

  /** The day a file name lies under, or `None` when `remove_older_files` skips the name (fewer
    * than three `/`, a field that is not all digits, or digits that `datetime.date` rejects with
    * `ValueError`) or raises on it. */
  function PathDate(fname: string): (r: Option<Date>)
    ensures r.Some? ==> Valid(r.value)
    ensures r.Some? ==> DateArgs(fname) == Some((r.value.year, r.value.month, r.value.day))
    ensures Count(fname, '/') < 3 || OverflowsAt(fname) ==> r.None?
  {
    match DateArgs(fname)
    case None => None
    case Some((y, m, d)) => if Overflows(y, m, d) then None else MakeDate(y, m, d)
  }

  /** Whether `remove_older_files(date, ...)` yields `fname`. */
  predicate IsNewer(cutoff: Date, fname: string) {
    match PathDate(fname)
    case Some(d) => Before(cutoff, d)
    case None => false
  }

  /** The names `remove_older_files` yields from a listing it does not raise on, in input order. */
  function Newer(cutoff: Date, files: seq<string>): seq<string> {
    if files == [] then []
    else
      var last := files[|files| - 1];
      Newer(cutoff, files[..|files| - 1]) + (if IsNewer(cutoff, last) then [last] else [])
  }

  /** `remove_older_files`: the generator's loop, collecting what it yields. `raised` is the
    * position of the name on which it raises `OverflowError`, if any: what was yielded before
    * it is then `kept`, and nothing after it is looked at. */
  method RemoveOlderFiles(cutoff: Date, files: seq<string>) returns (kept: seq<string>, raised: Option<nat>)
    ensures raised.None? <==> NoOverflow(files)
    ensures raised.None? ==> kept == Newer(cutoff, files)
    ensures raised.Some? ==> var i := raised.value;
      && i < |files| && OverflowsAt(files[i]) && NoOverflow(files[..i])
      && kept == Newer(cutoff, files[..i])
  {
    kept, raised := [], None;
    for i := 0 to |files|
      invariant kept == Newer(cutoff, files[..i])
      invariant NoOverflow(files[..i])
    {
      NextName(cutoff, files, i);
      var fname := files[i];
      if Count(fname, '/') < 3 {
        continue;
      }
      SplitLength(fname, '/');
      var parts := Split(fname, '/');
      var year, month, day := parts[0], parts[1], parts[2];
      if !(IsDigits(year) && IsDigits(month) && IsDigits(day)) {
        continue;
      }
      var y, m, d := Value(year), Value(month), Value(day);
      if Overflows(y, m, d) {
        raised := Some(i);
        return;
      }
      match MakeDate(y, m, d) {
        case None =>
        case Some(date) =>
          if Before(cutoff, date) {
            kept := kept + [fname];
          }
      }
    }
    assert files[..|files|] == files;
  }

  /** Looking at one more name of the listing. */
  lemma NextName(cutoff: Date, files: seq<string>, i: nat)
    requires i < |files|
    ensures Newer(cutoff, files[..i + 1])
      == Newer(cutoff, files[..i]) + (if IsNewer(cutoff, files[i]) then [files[i]] else [])
    ensures NoOverflow(files[..i + 1]) <==> NoOverflow(files[..i]) && !OverflowsAt(files[i])
  {
    assert files[..i + 1][..i] == files[..i];
  }

  /** `a` is `b` with some elements left out, the rest in their order. */
  predicate IsSubsequence(a: seq<string>, b: seq<string>)
    decreases |b|
  {
    if a == [] then true
    else if b == [] then false
    else
      (a[|a| - 1] == b[|b| - 1] && IsSubsequence(a[..|a| - 1], b[..|b| - 1]))
      || IsSubsequence(a, b[..|b| - 1])
  }

  /** The yielded names keep the order of the listing. */
  lemma {:induction false} NewerIsSubsequence(cutoff: Date, files: seq<string>)
    ensures IsSubsequence(Newer(cutoff, files), files)
  {
    if files != [] {
      var init := files[..|files| - 1];
      NewerIsSubsequence(cutoff, init);
      var r := Newer(cutoff, files);
      if IsNewer(cutoff, files[|files| - 1]) {
        assert r[..|r| - 1] == Newer(cutoff, init);
      } else {
        assert r == Newer(cutoff, init);
      }
    }
  }

  /** Of the names looked at, one is yielded exactly when it is listed and names a valid day
    * after the cutoff. */
  lemma {:induction false} NewerMembers(cutoff: Date, files: seq<string>, x: string)
    ensures x in Newer(cutoff, files) <==> x in files && IsNewer(cutoff, x)
  {
    if files != [] {
      var init := files[..|files| - 1];
      NewerMembers(cutoff, init, x);
      assert files == init + [files[|files| - 1]];
    }
  }

  /** A name made of three `/`-free fields and a rest: its date arguments are the fields read by
    * `int(s, 10)` when all three are digits, and there are none otherwise. */
  lemma PathFields(year: string, month: string, day: string, rest: string)
    requires '/' !in year && '/' !in month && '/' !in day
    ensures var fname := year + "/" + month + "/" + day + "/" + rest;
      DateArgs(fname) == if IsDigits(year) && IsDigits(month) && IsDigits(day)
                         then Some((Value(year), Value(month), Value(day))) else None
  {
    var fname := year + "/" + month + "/" + day + "/" + rest;
    assert fname == year + ['/'] + (month + ['/'] + (day + ['/'] + rest));
    SplitConcat(day, '/', rest);
    SplitConcat(month, '/', day + ['/'] + rest);
    SplitConcat(year, '/', month + ['/'] + (day + ['/'] + rest));
    SplitNoSep(year, '/');
    SplitNoSep(month, '/');
    SplitNoSep(day, '/');
    var parts := Split(fname, '/');
    assert parts == [year] + ([month] + ([day] + Split(rest, '/')));
    assert parts[0] == year && parts[1] == month && parts[2] == day;
    SplitLength(fname, '/');
  }

  /** `'%d/%d/%d/<rest>'` of any three numbers names the day `datetime.date` makes of them, and
    * the generator raises on it exactly when a number does not fit in a C `int`. */
  lemma PathDateOfNumbers(y: nat, m: nat, d: nat, rest: string)
    ensures var fname := Digits(y) + "/" + Digits(m) + "/" + Digits(d) + "/" + rest;
      && PathDate(fname) == MakeDate(y, m, d)
      && (OverflowsAt(fname) <==> Overflows(y, m, d))
  {
    NoNonDigit(Digits(y), '/');
    NoNonDigit(Digits(m), '/');
    NoNonDigit(Digits(d), '/');
    PathFields(Digits(y), Digits(m), Digits(d), rest);
    ValueOfDigits(y);
    ValueOfDigits(m);
    ValueOfDigits(d);
  }

  /** A name whose year, month or day field is not all digits is skipped. */
  lemma NonDigitFieldSkipped(cutoff: Date, year: string, month: string, day: string, rest: string)
    requires '/' !in year && '/' !in month && '/' !in day
    requires !(IsDigits(year) && IsDigits(month) && IsDigits(day))
    ensures var fname := year + "/" + month + "/" + day + "/" + rest;
      PathDate(fname) == None && !OverflowsAt(fname) && !IsNewer(cutoff, fname)
  {
    PathFields(year, month, day, rest);
  }

  /** Files under the data directory of a day, `'%d/%02d/%02d' % ...` followed by `/`, are
    * yielded exactly when that day is after the cutoff. */
  lemma DayDirFileIsNewer(cutoff: Date, d: Date, rest: string)
    requires Valid(d)
    ensures PathDate(DayDir(d) + "/" + rest) == Some(d)
    ensures IsNewer(cutoff, DayDir(d) + "/" + rest) <==> Before(cutoff, d)
  {
    var y, m, dd := Digits(d.year), Padded(d.month, 2), Padded(d.day, 2);
    NoNonDigit(y, '/');
    NoNonDigit(m, '/');
    NoNonDigit(dd, '/');
    PathFields(y, m, dd, rest);
    ValueOfDigits(d.year);
    ValueOfPadded(d.month, 2);
    ValueOfPadded(d.day, 2);
  }

  /** The unit tests' rejected names: one without a date directory, ... */
  lemma NoDateDirectorySkipped()
    ensures PathDate("monkey/06/.gz") == None
  {
    assert "monkey/06/.gz" == "monkey" + ['/'] + "06" + ['/'] + ".gz";
    CountTwo("monkey", "06", ".gz", '/');
  }

  /** ... one with a year that is not numeric, ... */
  lemma BadYearSkipped(cutoff: Date, rest: string)
    ensures PathDate("BADYEAR/10/26/" + rest) == None
  {
    assert "BADYEAR/10/26/" + rest == "BADYEAR" + "/" + "10" + "/" + "26" + "/" + rest;
    assert !IsDigitChar("BADYEAR"[0]);
    NonDigitFieldSkipped(cutoff, "BADYEAR", "10", "26", rest);
  }

  /** ... and the 35th of October. */
  lemma ImpossibleDaySkipped(rest: string)
    ensures PathDate("2016/10/35/" + rest) == None
  {
    assert "2016/10/35/" + rest == "2016" + "/" + "10" + "/" + "35" + "/" + rest;
    PathFields("2016", "10", "35", rest);
    assert IsDigits("2016") && IsDigits("10") && IsDigits("35");
    assert Value("35") == Value("3") * 10 + 5;
  }

  /** A year one above the largest C `int` makes the generator raise. */
  lemma OverflowExample()
    ensures OverflowsAt(Digits(INT_MAX + 1) + "/" + Digits(1) + "/" + Digits(1) + "/" + "f.gz")
  {
    PathDateOfNumbers(INT_MAX + 1, 1, 1, "f.gz");
  }
}
