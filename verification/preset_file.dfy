/** The rating database file `dbpresets`: `put` and the save loop of
    `uninitialize` write it, `LoadDBPresets` reads it back. One line per
    record, `"<rating> <playcount> <name>\n"`. The file is a string; reading
    it line by line is `SplitLines`. */
module PresetFile {
  import opened CText
  import opened WrapperTypes
  import opened SeqFacts

  /** The file name appended to the configuration path. */
  const DbFileName: string := "dbpresets"

  /** A name with its record, as one line of the file carries them. */
  datatype Entry = Entry(name: string, preset: DBPreset)

  /** A non-empty line with no newline before its last character. */
  predicate OneLine(l: string)
  {
    |l| > 0 && forall k :: 0 <= k < |l| - 1 ==> l[k] != '\n'
  }

  /** A line that ends in a newline. */
  predicate EndsLine(l: string)
  {
    |l| > 0 && l[|l| - 1] == '\n'
  }

  /** `put`: the line `sprintf("%d %d %s\n", ...)` produces; `%s` prints the
      name up to its first NUL. */
  function FormatLine(rating: Int32, playcount: Int32, name: string): (line: string)
    ensures EndsLine(line)
  {
    IntToDec(rating) + (" " + (IntToDec(playcount) + (" " + (CStr(name) + "\n"))))
  }

  /** A line ends in its only newline when the name has none. */
  lemma FormatLineOneLine(rating: Int32, playcount: Int32, name: string)
    requires '\n' !in name
    ensures OneLine(FormatLine(rating, playcount, name))
  {
    var r := IntToDec(rating);
    var p := IntToDec(playcount);
    var n := CStr(name);
    var line := FormatLine(rating, playcount, name);
    IntToDecDigits(rating);
    IntToDecDigits(playcount);
    assert '\n' !in n by { assert n <= name; }
    forall k | 0 <= k < |line| - 1 ensures line[k] != '\n' {
      if k < |r| {
        assert line[k] == r[k];
      } else if k == |r| || k == |r| + 1 + |p| {
      } else if k < |r| + 1 + |p| {
        assert line[k] == p[k - |r| - 1];
      } else {
        assert line[k] == n[k - |r| - |p| - 2];
      }
    }
  }

  /** The lines written one after the other. */
  function Join(lines: seq<string>): string
  {
    if lines == [] then "" else lines[0] + Join(lines[1..])
  }

  /** What successive `getline` calls return on a file: each line runs up to
      and including a newline, except that the last one lacks it when the
      file does not end in one; an empty file has no lines. */
  function SplitLines(text: string): (lines: seq<string>)
    ensures |lines| <= |text|
    decreases |text|
  {
    if text == "" then []
    else match FindFirst(text, '\n')
      case None => [text]
      case Some(i) => [text[..i + 1]] + SplitLines(text[i + 1..])
  }

  /** The lines put back together are the file. */
  lemma {:induction false} SplitLinesJoin(text: string)
    ensures Join(SplitLines(text)) == text
    decreases |text|
  {
    if text != "" {
      match FindFirst(text, '\n')
      case None =>
      case Some(i) =>
        var rest := text[i + 1..];
        SplitLinesJoin(rest);
        var lines := SplitLines(text);
        assert lines == [text[..i + 1]] + SplitLines(rest);
        assert lines[1..] == SplitLines(rest);
        assert text == text[..i + 1] + rest;
    }
  }

  /** Each line is a single line, and every line but the last ends in a
      newline. */
  lemma {:induction false} SplitLinesShape(text: string)
    ensures forall i :: 0 <= i < |SplitLines(text)| ==> OneLine(SplitLines(text)[i])
    ensures forall i :: 0 <= i < |SplitLines(text)| - 1 ==> EndsLine(SplitLines(text)[i])
    decreases |text|
  {
    if text != "" {
      match FindFirst(text, '\n')
      case None =>
        assert SplitLines(text) == [text];
        assert OneLine(text) by {
          forall k | 0 <= k < |text| - 1 ensures text[k] != '\n' {
            assert text[k] in text;
          }
        }
      case Some(i) =>
        var rest := text[i + 1..];
        SplitLinesShape(rest);
        var lines := SplitLines(text);
        var first := text[..i + 1];
        assert lines == [first] + SplitLines(rest);
        assert OneLine(first) by {
          forall k | 0 <= k < i ensures first[k] != '\n' {
            assert first[k] == text[..i][k];
          }
        }
        forall j | 1 <= j < |lines|
          ensures lines[j] == SplitLines(rest)[j - 1]
        {
        }
    }
  }

  /** A line `LoadDBPresets` can read: `substr(2)` needs two characters and
      both `>>` extractions must succeed. */
  predicate WellFormedLine(s: string)
  {
    && |s| >= 2
    && ScanInt(s, 0).Some?
    && ScanInt(s, ScanInt(s, 0).value.1).Some?
  }

  /** The name `LoadDBPresets` cuts out of a line: drop two characters, then
      everything up to and including the first space, then the last character.
      `find_first_of` returning `npos` keeps the whole string, because
      `npos + 1` is 0, and so does dropping the last character of an empty
      string, because `size() - 1` wraps to `npos`. */
  function LineName(s: string): (name: string)
    requires |s| >= 2
    ensures |s| == 2 ==> name == ""
    ensures |s| > 2 ==> |name| < |s| - 2 && name == s[|s| - 1 - |name|..|s| - 1]
  {
    var afterRating := s[2..];
    var afterCount := match FindFirst(afterRating, ' ')
      case Some(i) => afterRating[i + 1..]
      case None => afterRating;
    if afterCount == [] then afterCount else afterCount[..|afterCount| - 1]
  }

  /** One line read by `LoadDBPresets`: the two numbers `>>` extracts and the
      name `LineName` cuts out. */
  function ParseLine(s: string): (e: Entry)
    requires WellFormedLine(s)
    ensures |e.name| <= |s| - 2
  {
    var rating := ScanInt(s, 0).value;
    var playcount := ScanInt(s, rating.1).value;
    Entry(LineName(s), DBPreset(rating.0, playcount.0))
  }

  /** Every line, cut at its first NUL as `std::string(line)` does, can be read. */
  predicate AllWellFormed(lines: seq<string>)
  {
    forall i :: 0 <= i < |lines| ==> WellFormedLine(CStr(lines[i]))
  }

  predicate WellFormedFile(text: string)
  {
    AllWellFormed(SplitLines(text))
  }

  /** The entries read from the lines, one per line, in order. */
  function ParseAll(lines: seq<string>): (es: seq<Entry>)
    requires AllWellFormed(lines)
    ensures |es| == |lines|
  {
    if lines == [] then []
    else
      var prefix := lines[..|lines| - 1];
      assert forall i :: 0 <= i < |prefix| ==> prefix[i] == lines[i];
      ParseAll(prefix) + [ParseLine(CStr(lines[|lines| - 1]))]
  }

  function ParseFile(text: string): seq<Entry>
    requires WellFormedFile(text)
  {
    ParseAll(SplitLines(text))
  }

  /** `dbpm.insert` of each entry in turn. `insert` never overwrites, so a
      name that already has a record keeps it. */
  function InsertAll(db: DBPM, es: seq<Entry>): (r: DBPM)
    ensures forall k :: k in r <==> k in db || exists i :: 0 <= i < |es| && es[i].name == k
    ensures forall k :: k in db ==> r[k] == db[k]
  {
    if es == [] then db
    else
      var before := InsertAll(db, es[..|es| - 1]);
      var e := es[|es| - 1];
      assert forall i :: 0 <= i < |es| - 1 ==> es[..|es| - 1][i] == es[i];
      if e.name in before then before else before[e.name := e.preset]
  }

  /** Inserting one more entry: it is added only when its name has no record yet. */
  lemma InsertAllSnoc(db: DBPM, es: seq<Entry>, e: Entry)
    ensures InsertAll(db, es + [e]) ==
              if e.name in InsertAll(db, es) then InsertAll(db, es) else InsertAll(db, es)[e.name := e.preset]
  {
    assert (es + [e])[..|es|] == es;
  }

  /** For a name without a record, the first line that carries it decides
      its record; later lines with the same name are ignored. */
  lemma {:induction false} FirstEntryWins(db: DBPM, es: seq<Entry>, i: nat)
    requires i < |es| && es[i].name !in db
    requires forall j :: 0 <= j < i ==> es[j].name != es[i].name
    ensures es[i].name in InsertAll(db, es) && InsertAll(db, es)[es[i].name] == es[i].preset
    decreases |es|
  {
    var prefix := es[..|es| - 1];
    var before := InsertAll(db, prefix);
    var n := es[i].name;
    var e := es[|es| - 1];
    assert InsertAll(db, es) == if e.name in before then before else before[e.name := e.preset];
    if i < |es| - 1 {
      assert n in before && before[n] == es[i].preset by {
        assert prefix[i] == es[i];
        assert forall j :: 0 <= j < i ==> prefix[j] == es[j];
        FirstEntryWins(db, prefix, i);
      }
    } else {
      assert n !in before by {
        forall j | 0 <= j < |prefix| ensures prefix[j].name != n {
          assert prefix[j] == es[j];
        }
      }
    }
  }

  /** The entries the save loop writes, in playlist order: every playlist
      item that has a record with a positive play count. */
  function Saved(db: DBPM, playlist: seq<CString>): (es: seq<Entry>)
    ensures |es| <= |playlist|
  {
    if playlist == [] then []
    else
      var p := playlist[|playlist| - 1];
      Saved(db, playlist[..|playlist| - 1])
        + (if p in db && db[p].playcount > 0 then [Entry(p, db[p])] else [])
  }

  /** The lines of the entries, written one after the other. */
  function Format(es: seq<Entry>): (text: string)
    ensures text == "" || EndsLine(text)
  {
    if es == [] then ""
    else
      var e := es[|es| - 1];
      Format(es[..|es| - 1]) + FormatLine(e.preset.rating, e.preset.playcount, e.name)
  }

  /** The file the save loop of `uninitialize` writes. */
  function SaveText(db: DBPM, playlist: seq<CString>): (text: string)
    ensures text == "" || EndsLine(text)
  {
    Format(Saved(db, playlist))
  }

  /** One more playlist item adds its line when its record has a positive
      play count, and nothing otherwise. */
  lemma SaveTextSnoc(db: DBPM, playlist: seq<CString>, p: CString)
    ensures SaveText(db, playlist + [p]) ==
              SaveText(db, playlist)
                + SavedLine(db, p)
  {
    assert (playlist + [p])[..|playlist|] == playlist;
    var before := Saved(db, playlist);
    if p in db && db[p].playcount > 0 {
      var es := before + [Entry(p, db[p])];
      assert es[..|es| - 1] == before;
    } else {
      assert Saved(db, playlist + [p]) == before;
    }
  }

  /** The line the save loop writes for one playlist item, if any. */
  function SavedLine(db: DBPM, p: CString): string
  {
    if p in db && db[p].playcount > 0 then FormatLine(db[p].rating, db[p].playcount, p) else ""
  }

  /** One step of the save loop over the playlist index. */
  lemma SaveTextStep(db: DBPM, playlist: seq<CString>, i: nat)
    requires i < |playlist|
    ensures SaveText(db, playlist[..i + 1]) == SaveText(db, playlist[..i]) + SavedLine(db, playlist[i])
  {
    PrefixSnoc(playlist, i);
    SaveTextSnoc(db, playlist[..i], playlist[i]);
  }

  /** An entry is written exactly when its name is a playlist item whose
      record has a positive play count, and it carries that record: records
      of names outside the playlist, and records never played, are dropped. */
  lemma {:induction false} SavedMembers(db: DBPM, playlist: seq<CString>)
    ensures forall e :: e in Saved(db, playlist) <==>
              e.name in playlist && e.name in db && db[e.name].playcount > 0 && e.preset == db[e.name]
    decreases |playlist|
  {
    if playlist != [] {
      var prefix := playlist[..|playlist| - 1];
      SavedMembers(db, prefix);
      assert playlist == prefix + [playlist[|playlist| - 1]];
    }
  }

  /** The save loop writes the items in playlist order: saving a playlist
      made of two parts writes the first part's lines, then the second's. */
  lemma {:induction false} SavedAppend(db: DBPM, a: seq<CString>, b: seq<CString>)
    ensures Saved(db, a + b) == Saved(db, a) + Saved(db, b)
    decreases |b|
  {
    if b == [] {
      assert a + b == a;
    } else {
      var b' := b[..|b| - 1];
      SavedAppend(db, a, b');
      assert (a + b)[..|a + b| - 1] == a + b';
    }
  }

  /** In the play count's digits followed by a space and the name, the
      first space is the one after the digits. */
  lemma CountThenName(rest: string, count: string, name: string)
    requires rest == count + (" " + (name + "\n")) && AllDigits(count)
    ensures FindFirst(rest, ' ') == Some(|count|)
    ensures rest[|count| + 1..] == name + "\n"
  {
    forall k | 0 <= k < |count| ensures rest[k] != ' ' {
      assert rest[k] == count[k] && IsDigit(count[k]);
    }
    FirstAt(rest, ' ', |count|);
  }

  /** The name cut out of a line whose text after the rating is the play
      count's digits, a space, the name and the line end. */
  lemma LineNameOfParts(s: string, c: char, count: string, name: string)
    requires s == [c] + (" " + (count + (" " + (name + "\n"))))
    requires AllDigits(count)
    ensures LineName(s) == name
  {
    DropTwo(c, ' ', count + (" " + (name + "\n")));
    CountThenName(s[2..], count, name);
    DropLast(name, '\n');
  }

  /** The line `put` writes for a one-digit rating, a non-negative play
      count and a name without NUL, piece by piece; it holds no NUL. */
  lemma FormatLineParts(rating: Int32, playcount: Int32, name: string)
    requires 0 <= rating <= 9 && 0 <= playcount && '\0' !in name
    ensures FormatLine(rating, playcount, name) ==
              [DigitChar(rating)] + (" " + (NatToDec(playcount) + (" " + (name + "\n"))))
    ensures '\0' !in FormatLine(rating, playcount, name)
  {
    var count := NatToDec(playcount);
    NatToDecDigits(playcount);
    assert NatToDec(rating) == [DigitChar(rating)];
    assert CStr(name) == name;
    assert '\0' !in count by {
      forall k | 0 <= k < |count| ensures count[k] != '\0' { assert IsDigit(count[k]); }
    }
  }

  /** `>>` reads a one-digit rating followed by a space. */
  lemma ScanRating(s: string, rating: Int32, tail: string)
    requires 0 <= rating <= 9 && s == [DigitChar(rating)] + tail
    requires |tail| > 0 && tail[0] == ' '
    ensures ScanInt(s, 0) == Some((rating, 1))
  {
    var digit := [DigitChar(rating)];
    assert s[0..1] == digit;
    assert DecValue(digit) == rating by {
      assert digit[..0] == [];
    }
    assert s[1] == tail[0];
    ScanDigits(s, 0, 0, digit, rating);
  }

  /** `>>` reads, after a one-character rating and its space, a play count
      followed by a space. */
  lemma ScanCount(s: string, c: char, playcount: Int32, count: string, tail: string)
    requires 0 <= playcount && count == NatToDec(playcount)
    requires s == [c] + (" " + (count + tail))
    requires |tail| > 0 && tail[0] == ' '
    ensures ScanInt(s, 1) == Some((playcount, 2 + |count|))
  {
    DecValueOfNatToDec(playcount);
    assert s[2..2 + |count|] == count;
    assert s[2 + |count|] == tail[0];
    ScanDigits(s, 1, 2, count, playcount);
  }

  /** `>>` reads the two numbers back from such a line. */
  lemma ScanLineParts(s: string, rating: Int32, playcount: Int32, name: string)
    requires 0 <= rating <= 9 && 0 <= playcount
    requires s == [DigitChar(rating)] + (" " + (NatToDec(playcount) + (" " + (name + "\n"))))
    ensures ScanInt(s, 0) == Some((rating, 1))
    ensures ScanInt(s, 1) == Some((playcount, 2 + |NatToDec(playcount)|))
  {
    var count := NatToDec(playcount);
    var afterCount := " " + (name + "\n");
    ScanRating(s, rating, " " + (count + afterCount));
    ScanCount(s, DigitChar(rating), playcount, count, afterCount);
  }

  /** A line `put` writes for a one-digit rating, a non-negative play count
      and a name with neither NUL nor newline reads back as that name and
      record: the name is everything after the play count, spaces included. */
  lemma ParseFormatLine(rating: Int32, playcount: Int32, name: string)
    requires 0 <= rating <= 9 && 0 <= playcount
    requires '\0' !in name && '\n' !in name
    ensures CStr(FormatLine(rating, playcount, name)) == FormatLine(rating, playcount, name)
    ensures WellFormedLine(FormatLine(rating, playcount, name))
    ensures ParseLine(FormatLine(rating, playcount, name)) == Entry(name, DBPreset(rating, playcount))
  {
    var line := FormatLine(rating, playcount, name);
    FormatLineParts(rating, playcount, name);
    ScanLineParts(line, rating, playcount, name);
    NatToDecDigits(playcount);
    LineNameOfParts(line, DigitChar(rating), NatToDec(playcount), name);
  }

  /** Once a newline occurs in a, the first newline of a + b is a's. */
  lemma FirstInPrefix(a: string, b: string, c: char)
    requires c in a
    ensures FindFirst(a + b, c) == FindFirst(a, c)
  {
    var i := FindFirst(a, c).value;
    forall k | 0 <= k < i ensures (a + b)[k] != c {
      assert a[..i][k] == a[k];
    }
    FirstAt(a + b, c, i);
  }

  /** `getline` on a text whose first newline is at i returns the text up
      to it, then goes on after it. */
  lemma SplitLinesFirst(t: string, i: nat)
    requires t != "" && FindFirst(t, '\n') == Some(i)
    ensures SplitLines(t) == [t[..i + 1]] + SplitLines(t[i + 1..])
  {
  }

  /** The slices of a + b that fall inside a. */
  lemma AppendSlices(a: string, b: string, i: nat)
    requires i < |a|
    ensures (a + b)[..i + 1] == a[..i + 1]
    ensures (a + b)[i + 1..] == a[i + 1..] + b
  {
  }

  /** Reading a file made of complete lines followed by more text gives the
      lines of the first part, then those of the rest. */
  lemma {:induction false} SplitLinesAppend(a: string, b: string)
    requires a == "" || EndsLine(a)
    ensures SplitLines(a + b) == SplitLines(a) + SplitLines(b)
    decreases |a|
  {
    if a == "" {
      assert a + b == b;
    } else {
      assert '\n' in a by { assert a[|a| - 1] == '\n'; }
      FirstInPrefix(a, b, '\n');
      var i := FindFirst(a, '\n').value;
      var rest := a[i + 1..];
      AppendSlices(a, b, i);
      SplitLinesFirst(a, i);
      SplitLinesFirst(a + b, i);
      assert rest == "" || EndsLine(rest) by {
        if rest != "" {
          assert rest[|rest| - 1] == a[|a| - 1];
        }
      }
      SplitLinesAppend(rest, b);
      ConsAppend(a[..i + 1], SplitLines(rest), SplitLines(b));
    }
  }

  /** A file holding one newline-terminated line reads as that line. */
  lemma SplitOneLine(line: string)
    requires OneLine(line) && EndsLine(line)
    ensures SplitLines(line) == [line]
  {
    FirstAt(line, '\n', |line| - 1);
    assert line[..|line|] == line;
    assert line[|line|..] == "";
  }

  /** An entry the file can carry faithfully: a one-digit rating, a
      non-negative play count, a name with neither NUL nor newline. */
  predicate Representable(e: Entry)
  {
    0 <= e.preset.rating <= 9 && 0 <= e.preset.playcount && '\0' !in e.name && '\n' !in e.name
  }

  /** Reading one more line: the file stays readable when the line is, and
      the entries read gain that line's entry. */
  lemma ParseAllSnoc(lines: seq<string>, line: string)
    requires AllWellFormed(lines) && WellFormedLine(CStr(line))
    ensures AllWellFormed(lines + [line])
    ensures ParseAll(lines + [line]) == ParseAll(lines) + [ParseLine(CStr(line))]
  {
    var all := lines + [line];
    assert forall i :: 0 <= i < |lines| ==> all[i] == lines[i];
    assert all[..|all| - 1] == lines;
  }

  /** One `getline` step of `LoadDBPresets`: reading line i inserts its
      entry unless its name already has a record. */
  lemma LoadStep(db: DBPM, lines: seq<string>, i: nat)
    requires i < |lines| && AllWellFormed(lines)
    ensures AllWellFormed(lines[..i]) && AllWellFormed(lines[..i + 1])
    ensures InsertAll(db, ParseAll(lines[..i + 1])) ==
              var before := InsertAll(db, ParseAll(lines[..i]));
              var e := ParseLine(CStr(lines[i]));
              if e.name in before then before else before[e.name := e.preset]
  {
    PrefixSnoc(lines, i);
    ParseAllSnoc(lines[..i], lines[i]);
    InsertAllSnoc(db, ParseAll(lines[..i]), ParseLine(CStr(lines[i])));
  }

  /** Reading what `Format` wrote gives back the same entries, in order. */
  lemma {:induction false} ParseFormat(es: seq<Entry>)
    requires forall i :: 0 <= i < |es| ==> Representable(es[i])
    ensures WellFormedFile(Format(es)) && ParseFile(Format(es)) == es
    decreases |es|
  {
    if es != [] {
      var prefix := es[..|es| - 1];
      var e := es[|es| - 1];
      assert es == prefix + [e];
      assert forall i :: 0 <= i < |prefix| ==> prefix[i] == es[i];
      ParseFormat(prefix);
      var front := Format(prefix);
      var line := FormatLine(e.preset.rating, e.preset.playcount, e.name);
      assert Representable(e);
      ParseFormatLine(e.preset.rating, e.preset.playcount, e.name);
      FormatLineOneLine(e.preset.rating, e.preset.playcount, e.name);
      assert Format(es) == front + line;
      SplitLinesAppend(front, line);
      SplitOneLine(line);
      assert SplitLines(Format(es)) == SplitLines(front) + [line];
      ParseAllSnoc(SplitLines(front), line);
      var read := ParseAll(SplitLines(front) + [line]);
      assert read == prefix + [Entry(e.name, e.preset)];
      assert ParseFile(Format(es)) == read;
    }
  }

  /** The records the save loop keeps: those of playlist items with a
      positive play count. */
  function Kept(db: DBPM, playlist: seq<CString>): (r: DBPM)
    ensures forall k :: k in r <==> k in db && k in playlist && db[k].playcount > 0
    ensures forall k :: k in r ==> r[k] == db[k]
  {
    map k | k in db && k in playlist && db[k].playcount > 0 :: db[k]
  }

  /** One more playlist item keeps its record too, if it has a positive play count. */
  lemma KeptSnoc(db: DBPM, playlist: seq<CString>, p: CString)
    ensures Kept(db, playlist + [p]) ==
              if p in db && db[p].playcount > 0 then Kept(db, playlist)[p := db[p]] else Kept(db, playlist)
  {
    var after := Kept(db, playlist + [p]);
    var expected := if p in db && db[p].playcount > 0 then Kept(db, playlist)[p := db[p]] else Kept(db, playlist);
    forall k ensures k in after <==> k in expected {
      assert k in playlist + [p] <==> k in playlist || k == p;
    }
    assert after.Keys == expected.Keys;
  }

  /** Inserting the saved entries into an empty database rebuilds exactly
      the kept records; a name listed twice in the playlist is written twice
      with the same record, and the second insert changes nothing. */
  lemma {:induction false} InsertSaved(db: DBPM, playlist: seq<CString>)
    ensures InsertAll(map[], Saved(db, playlist)) == Kept(db, playlist)
    decreases |playlist|
  {
    if playlist != [] {
      var prefix := playlist[..|playlist| - 1];
      var p := playlist[|playlist| - 1];
      assert playlist == prefix + [p];
      InsertSaved(db, prefix);
      KeptSnoc(db, prefix, p);
      var before := Saved(db, prefix);
      if p in db && db[p].playcount > 0 {
        var es := before + [Entry(p, db[p])];
        assert es[..|es| - 1] == before;
        assert Saved(db, playlist) == es;
        assert InsertAll(map[], es) ==
          if p in Kept(db, prefix) then Kept(db, prefix) else Kept(db, prefix)[p := db[p]];
        if p in Kept(db, prefix) {
          assert Kept(db, prefix)[p := db[p]] == Kept(db, prefix);
        }
      } else {
        assert Saved(db, playlist) == before;
      }
    }
  }

  /** Save then load round trip: when every record the save keeps has a
      one-digit rating and a name without a newline, the saved file can be
      read, and reading it into an empty database reproduces exactly the
      records of the playlist items with a positive play count. */
  lemma SaveLoadRoundTrip(db: DBPM, playlist: seq<CString>)
    requires forall k :: k in db && k in playlist && db[k].playcount > 0 ==>
               0 <= db[k].rating <= 9 && '\n' !in k
    ensures WellFormedFile(SaveText(db, playlist))
    ensures InsertAll(map[], ParseFile(SaveText(db, playlist))) == Kept(db, playlist)
  {
    var es := Saved(db, playlist);
    SavedMembers(db, playlist);
    assert forall i :: 0 <= i < |es| ==> Representable(es[i]) by {
      forall i | 0 <= i < |es| ensures Representable(es[i]) {
        assert es[i] in es;
      }
    }
    ParseFormat(es);
    InsertSaved(db, playlist);
  }

  /** Why the round trip needs a one-digit rating: `substr(2)` takes the
      rating to be one character long, so a record saved with rating -1 is read
      back with the play count's digits and a space in front of its name. */
  lemma NegativeRatingShiftsName()
    ensures FormatLine(-1, 1, "abc") == "-1 1 abc\n"
    ensures WellFormedLine("-1 1 abc\n")
    ensures ParseLine("-1 1 abc\n") == Entry("1 abc", DBPreset(-1, 1))
  {
    NegativeFormatLine();
    NegativeLineNumbers();
    NegativeLineName();
  }

  /** The line `put` writes for the record (-1, 1) named `abc`. */
  lemma NegativeFormatLine()
    ensures FormatLine(-1, 1, "abc") == "-1 1 abc\n"
  {
    assert NatToDec(1) == "1";
    assert IntToDec(-1) == "-1";
    assert IntToDec(1) == "1";
    assert CStr("abc") == "abc";
  }

  /** The two numbers `>>` extracts from `"-1 1 abc\n"`. */
  lemma NegativeLineNumbers()
    ensures ScanInt("-1 1 abc\n", 0) == Some((-1, 2))
    ensures ScanInt("-1 1 abc\n", 2) == Some((1, 4))
  {
    var s := "-1 1 abc\n";
    assert DecValue("1") == 1 by {
      assert "1"[..0] == [];
    }
    assert SkipSpace(s, 0) == 0;
    assert DigitsEnd(s, 2) == 2;
    assert DigitsEnd(s, 1) == 2;
    assert s[1..2] == "1";
    assert SkipSpace(s, 3) == 3;
    assert SkipSpace(s, 2) == 3;
    assert DigitsEnd(s, 4) == 4;
    assert DigitsEnd(s, 3) == 4;
    assert s[3..4] == "1";
  }

  /** The name `LoadDBPresets` cuts out of `"-1 1 abc\n"`. */
  lemma NegativeLineName()
    ensures LineName("-1 1 abc\n") == "1 abc"
  {
    var rest := "-1 1 abc\n"[2..];
    assert rest == " 1 abc\n";
    assert FindFirst(rest, ' ') == Some(0);
    assert rest[1..] == "1 abc\n";
  }
}
