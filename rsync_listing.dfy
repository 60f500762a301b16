/** Parsing the output of `rsync --list-only --recursive` into the names of the listed files
  * (`list_rsync_files`, without the subprocess call). */
module RsyncListing {
  import opened Wrappers
  import opened Strings

  predicate IsBlank(s: string) {
    forall i :: 0 <= i < |s| ==> IsSpace(s[i])
  }

  predicate NoSpace(s: string) {
    forall i :: 0 <= i < |s| ==> !IsSpace(s[i])
  }

  /** `s` without its leading whitespace. */
  function TrimStart(s: string): (t: string)
    ensures |t| <= |s|
    ensures t == [] || !IsSpace(t[0])
    ensures t == [] <==> IsBlank(s)
  {
    if s != [] && IsSpace(s[0]) then
      var t := TrimStart(s[1..]);
      assert IsBlank(s) <==> IsBlank(s[1..]) by {
        if IsBlank(s[1..]) {
          forall i | 0 <= i < |s| ensures IsSpace(s[i]) {
            if i > 0 { assert s[i] == s[1..][i - 1]; }
          }
        }
        if IsBlank(s) {
          forall i | 0 <= i < |s| - 1 ensures IsSpace(s[1..][i]) {
            assert s[1..][i] == s[i + 1];
          }
        }
      }
      t
    else
      assert s != [] ==> !IsBlank(s) by {
        if s != [] { assert !IsSpace(s[0]); }
      }
      s
  }

  /** The longest prefix of `s` without whitespace. */
  function Word(s: string): (w: string)
    ensures |w| <= |s|
    ensures s != [] && !IsSpace(s[0]) ==> |w| >= 1
  {
    if s == [] || IsSpace(s[0]) then [] else [s[0]] + Word(s[1..])
  }

  /** Python's `s.split(None, maxsplit)`: runs of whitespace separate the chunks, leading
    * whitespace is ignored, and once `maxsplit` chunks are cut the rest of the string, from
    * its first non-whitespace character on, is the last chunk, inner and trailing spaces kept. */
  function SplitWhitespace(s: string, maxsplit: nat): (chunks: seq<string>)
    ensures |chunks| <= maxsplit + 1
    ensures chunks == [] <==> IsBlank(s)
    ensures forall k :: 0 <= k < |chunks| ==> chunks[k] != []
    decreases |s|
  {
    var t := TrimStart(s);
    if t == [] then []
    else if maxsplit == 0 then [t]
    else
      var w := Word(t);
      [w] + SplitWhitespace(t[|w|..], maxsplit - 1)
  }

  /** Leading whitespace is all `TrimStart` removes. */
  lemma {:induction false} TrimStartSuffix(s: string)
    ensures EndsWith(s, TrimStart(s))
  {
    if s != [] && IsSpace(s[0]) {
      TrimStartSuffix(s[1..]);
      SuffixOfSuffix(s, s[1..], TrimStart(s[1..]));
    }
  }

  /** A suffix of a suffix is a suffix. */
  lemma SuffixOfSuffix(s: string, t: string, u: string)
    requires EndsWith(s, t) && EndsWith(t, u)
    ensures EndsWith(s, u)
  {
    assert s[|s| - |u|..] == s[|s| - |t|..][|t| - |u|..];
  }

  /** The first chunk starts at the first non-whitespace character. */
  lemma SplitWhitespaceFirst(s: string, maxsplit: nat)
    ensures var chunks := SplitWhitespace(s, maxsplit);
      chunks != [] ==> chunks[0][0] == TrimStart(s)[0]
  {
  }

  /** When all `maxsplit` cuts are made, the last chunk is the rest of the string from its first
    * non-whitespace character on. */
  lemma {:induction false} SplitWhitespaceLast(s: string, maxsplit: nat)
    ensures var chunks := SplitWhitespace(s, maxsplit);
      |chunks| == maxsplit + 1 ==> EndsWith(s, chunks[maxsplit]) && !IsSpace(chunks[maxsplit][0])
    decreases |s|
  {
    var t := TrimStart(s);
    TrimStartSuffix(s);
    if t != [] && maxsplit > 0 {
      var w := Word(t);
      var u := t[|w|..];
      var rest := SplitWhitespace(u, maxsplit - 1);
      SplitWhitespaceLast(u, maxsplit - 1);
      SuffixOfSuffix(s, t, u);
      assert SplitWhitespace(s, maxsplit) == [w] + rest;
      if |rest| == maxsplit {
        SuffixOfSuffix(s, u, rest[maxsplit - 1]);
      }
    }
  }

  /** The name `list_rsync_files` keeps from one line of the listing, if any: lines whose first
    * chunk starts with `d` (directories) and lines without exactly five chunks are skipped. */
  function ListedName(line: string): (r: Option<string>)
    requires !IsBlank(line)
    ensures TrimStart(line)[0] == 'd' ==> r == None
    ensures r.Some? ==> r.value != [] && !IsSpace(r.value[0]) && EndsWith(line, r.value)
  {
    SplitWhitespaceFirst(line, 4);
    SplitWhitespaceLast(line, 4);
    var chunks := SplitWhitespace(line, 4);
    if chunks[0][0] == 'd' then None
    else if |chunks| != 5 then None
    else Some(chunks[4])
  }

  function Names(lines: seq<string>): seq<string>
    requires forall i :: 0 <= i < |lines| ==> !IsBlank(lines[i])
  {
    if lines == [] then []
    else
      var last := lines[|lines| - 1];
      Names(lines[..|lines| - 1]) + (match ListedName(last) case Some(n) => [n] case None => [])
  }

  /** `list_rsync_files`, given the lines of rsync's output. A blank line makes the source fail
    * with an index error, so every line must hold a non-whitespace character. */
  method ListRsyncFiles(lines: seq<string>) returns (files: seq<string>)
    requires forall i :: 0 <= i < |lines| ==> !IsBlank(lines[i])
    ensures files == Names(lines)
    ensures |files| <= |lines|
  {
    files := [];
    for i := 0 to |lines|
      invariant files == Names(lines[..i])
      invariant |files| <= i
    {
      assert lines[..i + 1][..i] == lines[..i];
      var chunks := SplitWhitespace(lines[i], 4);
      if chunks[0][0] == 'd' {
        // a directory
      } else if |chunks| != 5 {
        // a malformed line, logged and skipped
      } else {
        files := files + [chunks[4]];
      }
    }
    assert lines[..|lines|] == lines;
  }

  /** Leading whitespace is ignored. */
  lemma {:induction false} SplitSkipsBlank(gap: string, rest: string, n: nat)
    requires IsBlank(gap)
    ensures SplitWhitespace(gap + rest, n) == SplitWhitespace(rest, n)
  {
    if gap != [] {
      assert (gap + rest)[1..] == gap[1..] + rest;
      assert IsSpace(gap[0]);
      SplitSkipsBlank(gap[1..], rest, n);
    } else {
      assert gap + rest == rest;
    }
  }

  lemma {:induction false} WordBeforeSpace(w: string, c: char, rest: string)
    requires NoSpace(w) && IsSpace(c)
    ensures Word(w + [c] + rest) == w
  {
    if w == [] {
      assert w + [c] + rest == [c] + rest;
    } else {
      assert (w + [c] + rest)[1..] == w[1..] + [c] + rest;
      WordBeforeSpace(w[1..], c, rest);
    }
  }

  /** A chunk followed by a run of whitespace is cut off as the first chunk. */
  lemma SplitFirst(w: string, gap: string, rest: string, n: nat)
    requires w != [] && NoSpace(w) && gap != [] && IsBlank(gap)
    ensures SplitWhitespace(w + gap + rest, n + 1) == [w] + SplitWhitespace(rest, n)
  {
    var s := w + gap + rest;
    assert TrimStart(s) == s;
    assert s == w + [gap[0]] + (gap[1..] + rest);
    WordBeforeSpace(w, gap[0], gap[1..] + rest);
    assert s[|w|..] == gap + rest;
    SplitSkipsBlank(gap, rest, n);
  }

  /** Fields separated by runs of whitespace, the last one free to hold spaces of its own. */
  function JoinFields(fields: seq<string>, gaps: seq<string>, last: string): string
    requires |gaps| == |fields|
  {
    if fields == [] then last else fields[0] + gaps[0] + JoinFields(fields[1..], gaps[1..], last)
  }

  /** `split(None, k)` undoes `JoinFields` for `k` whitespace-free fields. */
  lemma {:induction false} SplitJoinFields(fields: seq<string>, gaps: seq<string>, last: string)
    requires |gaps| == |fields|
    requires forall i :: 0 <= i < |fields| ==> fields[i] != [] && NoSpace(fields[i])
    requires forall i :: 0 <= i < |gaps| ==> gaps[i] != [] && IsBlank(gaps[i])
    requires last != [] && !IsSpace(last[0])
    ensures SplitWhitespace(JoinFields(fields, gaps, last), |fields|) == fields + [last]
  {
    if fields == [] {
      assert TrimStart(last) == last;
    } else {
      SplitJoinFields(fields[1..], gaps[1..], last);
      SplitFirst(fields[0], gaps[0], JoinFields(fields[1..], gaps[1..], last), |fields| - 1);
      assert [fields[0]] + (fields[1..] + [last]) == fields + [last];
    }
  }

  /** A line of `rsync --list-only` (permissions, size, date, time, name, separated by runs of
    * whitespace) yields its name, whatever spaces the name holds, unless the permissions mark
    * a directory. */
  lemma ListingLineName(perms: string, size: string, date: string, time: string, name: string,
                        gaps: seq<string>)
    requires perms != [] && size != [] && date != [] && time != []
    requires NoSpace(perms) && NoSpace(size) && NoSpace(date) && NoSpace(time)
    requires |gaps| == 4 && forall i :: 0 <= i < 4 ==> gaps[i] != [] && IsBlank(gaps[i])
    requires name != [] && !IsSpace(name[0])
    ensures var line := JoinFields([perms, size, date, time], gaps, name);
      !IsBlank(line) && ListedName(line) == if perms[0] == 'd' then None else Some(name)
  {
    var fields := [perms, size, date, time];
    SplitJoinFields(fields, gaps, name);
    var chunks := SplitWhitespace(JoinFields(fields, gaps, name), 4);
    assert chunks == fields + [name];
    assert |chunks| == 5 && chunks[0] == perms && chunks[4] == name;
  }

  lemma {:induction false} WordWhole(w: string)
    requires NoSpace(w)
    ensures Word(w) == w
  {
    if w != [] {
      WordWhole(w[1..]);
      assert [w[0]] + w[1..] == w;
    }
  }

  /** A line of a single chunk, such as `BADBADBAD`, yields nothing. */
  lemma OneChunkLineSkipped(line: string)
    requires line != [] && NoSpace(line)
    ensures !IsBlank(line) && ListedName(line) == None
  {
    assert TrimStart(line) == line;
    WordWhole(line);
    assert line[|line|..] == [];
  }

  /** A whitespace-free chunk is split into itself, whatever `maxsplit`. */
  lemma SplitNoSpace(w: string, n: nat)
    requires w != [] && NoSpace(w)
    ensures SplitWhitespace(w, n) == [w]
  {
    assert TrimStart(w) == w;
    if n > 0 {
      WordWhole(w);
      assert w[|w|..] == [];
    }
  }

  /** `split(None, n)` with cuts to spare undoes `JoinFields` when the last field is
    * whitespace-free too. */
  lemma {:induction false} SplitJoinFieldsSpare(fields: seq<string>, gaps: seq<string>, last: string, n: nat)
    requires |gaps| == |fields| && n >= |fields|
    requires forall i :: 0 <= i < |fields| ==> fields[i] != [] && NoSpace(fields[i])
    requires forall i :: 0 <= i < |gaps| ==> gaps[i] != [] && IsBlank(gaps[i])
    requires last != [] && NoSpace(last)
    ensures SplitWhitespace(JoinFields(fields, gaps, last), n) == fields + [last]
  {
    if fields == [] {
      SplitNoSpace(last, n);
    } else {
      SplitJoinFieldsSpare(fields[1..], gaps[1..], last, n - 1);
      SplitFirst(fields[0], gaps[0], JoinFields(fields[1..], gaps[1..], last), n - 1);
      assert [fields[0]] + (fields[1..] + [last]) == fields + [last];
    }
  }

  /** A line of two to four chunks, such as a bare size and name, yields nothing. */
  lemma ShortLineSkipped(fields: seq<string>, gaps: seq<string>, last: string)
    requires |gaps| == |fields| && |fields| < 4
    requires forall i :: 0 <= i < |fields| ==> fields[i] != [] && NoSpace(fields[i])
    requires forall i :: 0 <= i < |gaps| ==> gaps[i] != [] && IsBlank(gaps[i])
    requires last != [] && NoSpace(last)
    ensures var line := JoinFields(fields, gaps, last); !IsBlank(line) && ListedName(line) == None
  {
    SplitJoinFieldsSpare(fields, gaps, last, 4);
  }
}
