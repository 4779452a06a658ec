/**
 * Loading the tag data set into the database.  Each recognised `.dat` file maps to one table;
 * its first line (the column names) is skipped and every further line becomes one row of the
 * table's arity, each field normalised for the topic-model tool (first character upper-cased,
 * then whitespace and every non-word character removed).
 *
 * A file is its sequence of lines (`None` when it cannot be opened); the database is a map from
 * table to the rows inserted so far, the batch insert being an append.
 */
module ReadInDat {
  import opened Wrappers

  // ---- character classes of java.util.regex ----

  /** `\s`: space, tab, newline, vertical tab, form feed, carriage return. */
  predicate IsWhitespace(c: char) {
    c == ' ' || c == '\t' || c == '\n' || c as int == 0x0B || c as int == 0x0C || c == '\r'
  }

  /** `\w`: ASCII letters, digits and the underscore; `\W` is everything else. */
  predicate IsWordChar(c: char) {
    ('a' <= c <= 'z') || ('A' <= c <= 'Z') || ('0' <= c <= '9') || c == '_'
  }

  predicate IsLower(c: char) {
    'a' <= c <= 'z'
  }

  function ToUpper(c: char): (u: char)
    ensures IsLower(c) ==> 'A' <= u <= 'Z' && u as int == c as int - 32
    ensures !IsLower(c) ==> u == c
  {
    if IsLower(c) then (c as int - 32) as char else c
  }

  /** `replaceAll("\\s", "")`: the characters of `s` that are not whitespace, in order. */
  function RemoveWhitespace(s: string): (r: string)
    ensures |r| <= |s|
    ensures forall i :: 0 <= i < |r| ==> !IsWhitespace(r[i])
  {
    if s == [] then []
    else if IsWhitespace(s[0]) then RemoveWhitespace(s[1..])
    else [s[0]] + RemoveWhitespace(s[1..])
  }

  /** `replaceAll("\\W", "")`: the word characters of `s`, in order. */
  function RemoveNonWord(s: string): (r: string)
    ensures |r| <= |s|
    ensures forall i :: 0 <= i < |r| ==> IsWordChar(r[i])
  {
    if s == [] then []
    else if IsWordChar(s[0]) then [s[0]] + RemoveNonWord(s[1..])
    else RemoveNonWord(s[1..])
  }

  /**
   * `normaliseStrings`: the input must have a first character (an empty string makes
   * `substring(0, 1)` throw).  The output is made of word characters only, so it holds no
   * whitespace, and it is no longer than the input.
   */
  function NormaliseStrings(input: string): (output: string)
    requires |input| >= 1
    ensures |output| <= |input|
    ensures forall i :: 0 <= i < |output| ==> IsWordChar(output[i]) && !IsWhitespace(output[i])
  {
    RemoveNonWord(RemoveWhitespace([ToUpper(input[0])] + input[1..]))
  }

  lemma {:induction false} RemoveNonWordAppend(a: string, b: string)
    ensures RemoveNonWord(a + b) == RemoveNonWord(a) + RemoveNonWord(b)
  {
    if a != [] {
      var ab := a + b;
      assert ab[0] == a[0] && ab[1..] == a[1..] + b;
      RemoveNonWordAppend(a[1..], b);
      if IsWordChar(a[0]) {
        assert RemoveNonWord(ab) == [a[0]] + RemoveNonWord(a[1..] + b);
        assert RemoveNonWord(a) == [a[0]] + RemoveNonWord(a[1..]);
      } else {
        assert RemoveNonWord(ab) == RemoveNonWord(a[1..] + b);
      }
    } else {
      assert a + b == b;
    }
  }

  /** Whitespace characters are non-word characters, so the whitespace pass changes nothing. */
  lemma {:induction false} WhitespacePassRedundant(s: string)
    ensures RemoveNonWord(RemoveWhitespace(s)) == RemoveNonWord(s)
  {
    if s != [] {
      WhitespacePassRedundant(s[1..]);
      if !IsWhitespace(s[0]) {
        assert ([s[0]] + RemoveWhitespace(s[1..]))[1..] == RemoveWhitespace(s[1..]);
      }
    }
  }

  /**
   * Only the first character is case-changed: the output is the word characters of the
   * upper-cased first character followed by the word characters of the rest, in their order.
   */
  lemma NormaliseKeepsRest(input: string)
    requires |input| >= 1
    ensures NormaliseStrings(input) == RemoveNonWord([ToUpper(input[0])]) + RemoveNonWord(input[1..])
  {
    WhitespacePassRedundant([ToUpper(input[0])] + input[1..]);
    RemoveNonWordAppend([ToUpper(input[0])], input[1..]);
  }

  /** A lower-case first letter comes out upper-cased at the front of the output. */
  lemma NormaliseCapitalises(input: string)
    requires |input| >= 1 && IsLower(input[0])
    ensures |NormaliseStrings(input)| >= 1
    ensures NormaliseStrings(input)[0] == ToUpper(input[0]) && 'A' <= NormaliseStrings(input)[0] <= 'Z'
  {
    NormaliseKeepsRest(input);
    assert RemoveNonWord([ToUpper(input[0])]) == [ToUpper(input[0])];
  }

  lemma {:induction false} RemoveNonWordOfWords(s: string)
    requires forall i :: 0 <= i < |s| ==> IsWordChar(s[i])
    ensures RemoveNonWord(s) == s
  {
    if s != [] {
      RemoveNonWordOfWords(s[1..]);
    }
  }

  /**
   * A string of word characters whose first character is not a lower-case letter is left as
   * it is; so normalising twice is normalising once unless the first output character is a
   * lower-case letter (which happens when the input starts with a non-word character).
   */
  lemma NormaliseFixpoint(s: string)
    requires |s| >= 1 && !IsLower(s[0])
    requires forall i :: 0 <= i < |s| ==> IsWordChar(s[i])
    ensures NormaliseStrings(s) == s
  {
    NormaliseKeepsRest(s);
    RemoveNonWordOfWords(s[1..]);
    assert [s[0]] + s[1..] == s;
  }

  lemma NormaliseIdempotent(input: string)
    requires |input| >= 1 && |NormaliseStrings(input)| >= 1 && !IsLower(NormaliseStrings(input)[0])
    ensures NormaliseStrings(NormaliseStrings(input)) == NormaliseStrings(input)
  {
    NormaliseFixpoint(NormaliseStrings(input));
  }

  // ---- String.split ----

  predicate NoSeparator(s: string, sep: char) {
    forall i :: 0 <= i < |s| ==> s[i] != sep
  }

  /** Joins the parts with one separator between neighbours. */
  function Join(parts: seq<string>, sep: char): string
    requires |parts| >= 1
  {
    if |parts| == 1 then parts[0] else parts[0] + [sep] + Join(parts[1..], sep)
  }

  /** Splitting at every occurrence of `sep`, keeping empty pieces. */
  function SplitOn(s: string, sep: char): (parts: seq<string>)
    ensures |parts| >= 1
  {
    if s == [] then [""]
    else
      var rest := SplitOn(s[1..], sep);
      if s[0] == sep then [""] + rest else [[s[0]] + rest[0]] + rest[1..]
  }

  /** The pieces hold no separator, and joining them gives back the string. */
  lemma {:induction false} JoinSplitOn(s: string, sep: char)
    ensures forall i :: 0 <= i < |SplitOn(s, sep)| ==> NoSeparator(SplitOn(s, sep)[i], sep)
    ensures Join(SplitOn(s, sep), sep) == s
  {
    if s != [] {
      var rest := SplitOn(s[1..], sep);
      JoinSplitOn(s[1..], sep);
      if s[0] == sep {
        assert Join([""] + rest, sep) == "" + [sep] + Join(rest, sep);
        assert ([""] + rest)[1..] == rest;
      } else {
        var parts := [[s[0]] + rest[0]] + rest[1..];
        assert parts[1..] == rest[1..];
        if |rest| > 1 {
          assert Join(rest, sep) == rest[0] + [sep] + Join(rest[1..], sep);
        }
        assert Join(parts, sep) == s;
        assert forall i :: 1 <= i < |parts| ==> parts[i] == rest[i];
      }
    }
  }

  lemma {:induction false} SplitOnJoined(a: string, sep: char, r: string)
    requires NoSeparator(a, sep)
    ensures SplitOn(a + [sep] + r, sep) == [a] + SplitOn(r, sep)
  {
    if a == [] {
      assert a + [sep] + r == [sep] + r;
      assert ([sep] + r)[1..] == r;
    } else {
      assert (a + [sep] + r)[1..] == a[1..] + [sep] + r;
      SplitOnJoined(a[1..], sep, r);
      assert [a[0]] + a[1..] == a;
    }
  }

  lemma {:induction false} SplitOnNoSeparator(s: string, sep: char)
    requires NoSeparator(s, sep)
    ensures SplitOn(s, sep) == [s]
  {
    if s != [] {
      SplitOnNoSeparator(s[1..], sep);
      assert [s[0]] + s[1..] == s;
    }
  }

  /** Splitting a join of separator-free pieces gives the pieces back. */
  lemma {:induction false} SplitOnJoin(parts: seq<string>, sep: char)
    requires |parts| >= 1
    requires forall i :: 0 <= i < |parts| ==> NoSeparator(parts[i], sep)
    ensures SplitOn(Join(parts, sep), sep) == parts
  {
    if |parts| == 1 {
      SplitOnNoSeparator(parts[0], sep);
    } else {
      SplitOnJoin(parts[1..], sep);
      SplitOnJoined(parts[0], sep, Join(parts[1..], sep));
      assert [parts[0]] + parts[1..] == parts;
    }
  }

  function DropTrailingEmpty(parts: seq<string>): (r: seq<string>)
    ensures |r| <= |parts|
  {
    if |parts| > 0 && parts[|parts| - 1] == "" then DropTrailingEmpty(parts[..|parts| - 1]) else parts
  }

  /** What is dropped is exactly the run of empty pieces at the end. */
  lemma {:induction false} DropTrailingEmptyIsPrefix(parts: seq<string>)
    ensures DropTrailingEmpty(parts) == parts[..|DropTrailingEmpty(parts)|]
    ensures |DropTrailingEmpty(parts)| > 0 ==> DropTrailingEmpty(parts)[|DropTrailingEmpty(parts)| - 1] != ""
    ensures forall i :: |DropTrailingEmpty(parts)| <= i < |parts| ==> parts[i] == ""
  {
    if |parts| > 0 && parts[|parts| - 1] == "" {
      var front := parts[..|parts| - 1];
      DropTrailingEmptyIsPrefix(front);
      assert front[..|DropTrailingEmpty(front)|] == parts[..|DropTrailingEmpty(front)|];
    } else {
      assert parts[..|parts|] == parts;
    }
  }

  /**
   * `line.split("\t")`: a line without a tab is its own single piece (the empty line too);
   * otherwise the pieces between tabs, with trailing empty pieces removed.
   */
  function JavaSplit(line: string): (parts: seq<string>)
    ensures forall i :: 0 <= i < |parts| ==> NoSeparator(parts[i], '\t')
    ensures '\t' in line && |parts| > 0 ==> parts[|parts| - 1] != ""
  {
    if '\t' !in line then [line]
    else
      JoinSplitOn(line, '\t');
      DropTrailingEmptyIsPrefix(SplitOn(line, '\t'));
      DropTrailingEmpty(SplitOn(line, '\t'))
  }

  /** A tab-separated line with a non-empty last field splits back into its fields. */
  lemma JavaSplitOfJoin(fields: seq<string>)
    requires |fields| >= 1 && fields[|fields| - 1] != ""
    requires forall i :: 0 <= i < |fields| ==> NoSeparator(fields[i], '\t')
    ensures JavaSplit(Join(fields, '\t')) == fields
  {
    SplitOnJoin(fields, '\t');
    if |fields| == 1 {
      assert Join(fields, '\t') == fields[0];
    } else {
      var line := Join(fields, '\t');
      assert line == fields[0] + ['\t'] + Join(fields[1..], '\t');
      assert line[|fields[0]|] == '\t';
    }
  }

  // ---- lines to rows ----

  datatype Table = MovieTags | Tags | MovieGenres

  /** Columns filled per row: USER_ID, MOVIE_ID, TAG_ID; TAG_ID, TAG_VAL; MOVIE_ID, GENRE_VAL. */
  function Arity(t: Table): (n: nat)
    ensures 2 <= n <= 3
  {
    match t
    case MovieTags => 3
    case Tags => 2
    case MovieGenres => 2
  }

  /** The table a file name selects; any other name selects none. */
  function TableFor(location: string): (t: Option<Table>)
    ensures t == Some(MovieTags) <==> location == "user_taggedmovies.dat"
    ensures t == Some(Tags) <==> location == "tags.dat"
    ensures t == Some(MovieGenres) <==> location == "movie_genres.dat"
  {
    if location == "user_taggedmovies.dat" then Some(MovieTags)
    else if location == "tags.dat" then Some(Tags)
    else if location == "movie_genres.dat" then Some(MovieGenres)
    else None
  }

  /** The unchecked exceptions reading can raise; none is caught by the SQL/IO handler. */
  datatype Fault = NullPointer | ArrayIndexOutOfBounds | StringIndexOutOfBounds

  type Row = seq<string>

  /**
   * The first `n` fields, normalised left to right: a missing field raises an array index
   * fault, an empty one a string index fault, and the first fault met is the one raised.
   */
  function NormaliseFields(parts: seq<string>, n: nat): (r: Result<Row, Fault>)
    ensures r.Ok? ==> |r.value| == n
  {
    if n == 0 then Ok([])
    else match NormaliseFields(parts, n - 1)
      case Err(f) => Err(f)
      case Ok(fields) =>
        if n - 1 >= |parts| then Err(ArrayIndexOutOfBounds)
        else if parts[n - 1] == "" then Err(StringIndexOutOfBounds)
        else Ok(fields + [NormaliseStrings(parts[n - 1])])
  }

  /**
   * The row is the normalised first `n` pieces exactly when there are `n` pieces and none is
   * empty; otherwise an empty piece among those present raises a string index fault, and
   * missing pieces, all present ones non-empty, an array index fault.
   */
  lemma {:induction false} NormaliseFieldsSpec(parts: seq<string>, n: nat)
    ensures NormaliseFields(parts, n).Ok? <==> n <= |parts| && forall i :: 0 <= i < n ==> parts[i] != ""
    ensures NormaliseFields(parts, n).Ok? ==>
      forall i :: 0 <= i < n ==> |parts[i]| >= 1 && NormaliseFields(parts, n).value[i] == NormaliseStrings(parts[i])
    ensures NormaliseFields(parts, n) == Err(StringIndexOutOfBounds) <==> exists j :: 0 <= j < n && j < |parts| && parts[j] == ""
    ensures NormaliseFields(parts, n) == Err(ArrayIndexOutOfBounds) <==> |parts| < n && forall j :: 0 <= j < |parts| ==> parts[j] != ""
  {
    if n > 0 {
      NormaliseFieldsSpec(parts, n - 1);
    }
  }

  function ParseLine(t: Table, line: string): (r: Result<Row, Fault>)
    ensures r.Ok? ==> |r.value| == Arity(t)
    ensures r.Ok? ==> forall i, j :: 0 <= i < |r.value| && 0 <= j < |r.value[i]| ==> IsWordChar(r.value[i][j])
  {
    NormaliseFieldsSpec(JavaSplit(line), Arity(t));
    NormaliseFields(JavaSplit(line), Arity(t))
  }

  /** A line of two or more tab-free fields splits into its fields less the trailing empty ones. */
  lemma JavaSplitOfFields(fields: seq<string>)
    requires |fields| >= 2
    requires forall i :: 0 <= i < |fields| ==> NoSeparator(fields[i], '\t')
    ensures JavaSplit(Join(fields, '\t')) == DropTrailingEmpty(fields)
  {
    var line := Join(fields, '\t');
    assert line == fields[0] + ['\t'] + Join(fields[1..], '\t');
    assert line[|fields[0]|] == '\t';
    SplitOnJoin(fields, '\t');
  }

  /** The normalised first `n` pieces only look at those pieces. */
  lemma NormaliseLeadingFields(parts: seq<string>, fields: seq<string>, n: nat)
    requires n <= |parts| && n <= |fields|
    requires forall i :: 0 <= i < n ==> parts[i] == fields[i] && fields[i] != ""
    ensures NormaliseFields(parts, n).Ok?
    ensures forall i :: 0 <= i < n ==> NormaliseFields(parts, n).value[i] == NormaliseStrings(fields[i])
  {
    NormaliseFieldsSpec(parts, n);
  }

  /**
   * A line of tab-free fields, at least as many as the table needs and the needed ones
   * non-empty, parses to the needed fields normalised; the fields after them may be empty.
   */
  lemma ParseWellFormedLine(t: Table, fields: seq<string>)
    requires Arity(t) <= |fields|
    requires forall i :: 0 <= i < |fields| ==> NoSeparator(fields[i], '\t')
    requires forall i :: 0 <= i < Arity(t) ==> fields[i] != ""
    ensures ParseLine(t, Join(fields, '\t')).Ok?
    ensures forall i :: 0 <= i < Arity(t) ==> ParseLine(t, Join(fields, '\t')).value[i] == NormaliseStrings(fields[i])
  {
    JavaSplitOfFields(fields);
    DropTrailingEmptyKeepsLeading(fields, Arity(t));
    NormaliseLeadingFields(DropTrailingEmpty(fields), fields, Arity(t));
    ParseLineOfSplit(t, Join(fields, '\t'), DropTrailingEmpty(fields));
  }

  /** Dropping trailing empty pieces keeps every piece up to the last non-empty one. */
  lemma DropTrailingEmptyKeepsLeading(fields: seq<string>, n: nat)
    requires 1 <= n <= |fields| && forall i :: 0 <= i < n ==> fields[i] != ""
    ensures n <= |DropTrailingEmpty(fields)|
    ensures forall i :: 0 <= i < n ==> DropTrailingEmpty(fields)[i] == fields[i]
  {
    DropTrailingEmptyIsPrefix(fields);
    assert fields[n - 1] != "";
  }

  lemma ParseLineOfSplit(t: Table, line: string, parts: seq<string>)
    requires JavaSplit(line) == parts
    ensures ParseLine(t, line) == NormaliseFields(parts, Arity(t))
  {
  }

  /** Every line split at its tabs. */
  function SplitLines(lines: seq<string>): (split: seq<seq<string>>)
    ensures |split| == |lines|
  {
    seq(|lines|, i requires 0 <= i < |lines| => JavaSplit(lines[i]))
  }

  /**
   * The rows of the split lines after the header, in line order; the first line that fails
   * raises its fault and ends the read.
   */
  function Rows(t: Table, split: seq<seq<string>>): (r: Result<seq<Row>, Fault>)
    ensures r.Ok? <==> forall i :: 0 <= i < |split| ==> NormaliseFields(split[i], Arity(t)).Ok?
    ensures r.Ok? ==> |r.value| == |split| && forall i :: 0 <= i < |split| ==> r.value[i] == NormaliseFields(split[i], Arity(t)).value
  {
    if split == [] then Ok([])
    else
      var front := split[..|split| - 1];
      assert forall i :: 0 <= i < |front| ==> front[i] == split[i];
      match Rows(t, front)
      case Err(f) => Err(f)
      case Ok(rows) =>
        match NormaliseFields(split[|split| - 1], Arity(t))
        case Err(f) => Err(f)
        case Ok(row) => Ok(rows + [row])
  }

  /** The index of the first line that does not parse, or the number of lines if all do. */
  function FirstBadLine(t: Table, split: seq<seq<string>>): (i: nat)
    ensures i <= |split|
  {
    if split == [] then 0
    else if NormaliseFields(split[0], Arity(t)).Err? then 0
    else 1 + FirstBadLine(t, split[1..])
  }

  /** Every line before the first bad line parses, and the first bad line, if any, does not. */
  lemma {:induction false} FirstBadLineSpec(t: Table, split: seq<seq<string>>)
    ensures forall j :: 0 <= j < FirstBadLine(t, split) ==> NormaliseFields(split[j], Arity(t)).Ok?
    ensures FirstBadLine(t, split) < |split| ==> NormaliseFields(split[FirstBadLine(t, split)], Arity(t)).Err?
  {
    if split != [] && NormaliseFields(split[0], Arity(t)).Ok? {
      FirstBadLineSpec(t, split[1..]);
      assert forall j :: 1 <= j < |split| ==> split[1..][j - 1] == split[j];
    }
  }

  lemma {:induction false} FirstBadLinePrefix(t: Table, split: seq<seq<string>>, m: int)
    requires 0 <= m <= |split|
    ensures FirstBadLine(t, split[..m]) == if FirstBadLine(t, split) < m then FirstBadLine(t, split) else m
  {
    if m == 0 {
      assert split[..m] == [];
    } else {
      var prefix := split[..m];
      assert prefix[0] == split[0];
      if NormaliseFields(split[0], Arity(t)).Ok? {
        assert prefix[1..] == split[1..][..m - 1];
        FirstBadLinePrefix(t, split[1..], m - 1);
      }
    }
  }

  /** A read that fails raises the fault of the first line that does not parse. */
  lemma {:induction false} RowsFault(t: Table, split: seq<seq<string>>)
    requires Rows(t, split).Err?
    ensures FirstBadLine(t, split) < |split|
    ensures NormaliseFields(split[FirstBadLine(t, split)], Arity(t)).Err?
    ensures Rows(t, split).error == NormaliseFields(split[FirstBadLine(t, split)], Arity(t)).error
  {
    var m := |split| - 1;
    var front := split[..m];
    FirstBadLinePrefix(t, split, m);
    if Rows(t, front).Err? {
      RowsFault(t, front);
      assert front[FirstBadLine(t, front)] == split[FirstBadLine(t, split)];
    } else {
      FirstBadLineSpec(t, front);
      assert FirstBadLine(t, front) == m by {
        if FirstBadLine(t, front) < m {
          assert false;
        }
      }
      assert NormaliseFields(split[m], Arity(t)).Err?;
      FirstBadLineSpec(t, split);
      assert FirstBadLine(t, split) == m;
    }
  }

  lemma {:induction false} RowsKeepFirstFault(t: Table, split: seq<seq<string>>, j: int)
    requires 0 <= j <= |split| && Rows(t, split[..j]).Err?
    ensures Rows(t, split) == Rows(t, split[..j])
  {
    if j < |split| {
      var front := split[..|split| - 1];
      assert front[..j] == split[..j];
      RowsKeepFirstFault(t, front, j);
    } else {
      assert split[..j] == split;
    }
  }

  lemma RowsStep(t: Table, split: seq<seq<string>>, j: int)
    requires 0 <= j < |split|
    ensures Rows(t, split[..j + 1]) == match Rows(t, split[..j])
      case Err(f) => Err(f)
      case Ok(rows) => (match NormaliseFields(split[j], Arity(t)) case Err(f) => Err(f) case Ok(row) => Ok(rows + [row]))
  {
    assert split[..j + 1][..j] == split[..j];
  }

  /** What reading a file does. */
  datatype ReadOutcome =
    | Inserted(table: Table, rows: seq<Row>)  // the batch was executed
    | FileNotRead                             // opening the file failed; the exception is caught
    | Crash(fault: Fault)                     // an unchecked exception escapes

  /** The lines after the header; an empty file has neither. */
  function Body(lines: seq<string>): seq<string> {
    if |lines| == 0 then [] else lines[1..]
  }

  function ReadDataResult(location: string, file: Option<seq<string>>): (r: ReadOutcome)
    ensures r == FileNotRead <==> file.None?
    ensures file.Some? && TableFor(location).None? ==> r == Crash(NullPointer)
    ensures r.Inserted? ==> file.Some? && TableFor(location) == Some(r.table) && |r.rows| == |Body(file.value)|
    ensures r.Inserted? ==> forall i :: 0 <= i < |r.rows| ==> |r.rows[i]| == Arity(r.table)
  {
    match file
    case None => FileNotRead
    case Some(lines) =>
      match TableFor(location)
      case None => Crash(NullPointer)
      case Some(t) =>
        match Rows(t, SplitLines(Body(lines)))
        case Err(f) => Crash(f)
        case Ok(rows) => Inserted(t, rows)
  }

  /**
   * For a recognised file whose lines all parse, exactly one row per line after the header is
   * inserted, in line order; an opened file with an unrecognised name ends in a null pointer
   * fault; a file that cannot be opened inserts nothing and raises nothing.
   */
  lemma ReadDataOutcomes(location: string, file: Option<seq<string>>)
    ensures file.None? ==> ReadDataResult(location, file) == FileNotRead
    ensures file.Some? && TableFor(location).None? ==> ReadDataResult(location, file) == Crash(NullPointer)
    ensures file.Some? && TableFor(location).Some? && |file.value| >= 1
            && (forall i :: 1 <= i < |file.value| ==> ParseLine(TableFor(location).value, file.value[i]).Ok?)
            ==> var outcome := ReadDataResult(location, file);
                && outcome.Inserted? && outcome.table == TableFor(location).value
                && |outcome.rows| == |file.value| - 1
                && forall i :: 1 <= i < |file.value| ==> outcome.rows[i - 1] == ParseLine(outcome.table, file.value[i]).value
    ensures file.Some? && TableFor(location).Some? && file.value == []
            ==> ReadDataResult(location, file) == Inserted(TableFor(location).value, [])
  {
    if file.Some? && TableFor(location).Some? && |file.value| >= 1 {
      var split := SplitLines(Body(file.value));
      assert forall i :: 0 <= i < |split| ==> split[i] == JavaSplit(file.value[i + 1]);
    }
  }

  function Append(tables: map<Table, seq<Row>>, t: Table, rows: seq<Row>): map<Table, seq<Row>> {
    tables[t := (if t in tables then tables[t] else []) + rows]
  }

  function Stored(tables: map<Table, seq<Row>>, outcome: ReadOutcome): map<Table, seq<Row>> {
    if outcome.Inserted? then Append(tables, outcome.table, outcome.rows) else tables
  }

  /**
   * Reading the files in order: a crash escapes the import loop and ends it, with the tables
   * as the files before it left them.
   */
  function Import(tables: map<Table, seq<Row>>, locations: seq<string>, disk: string -> Option<seq<string>>)
    : (r: (map<Table, seq<Row>>, Option<Fault>))
    ensures forall t :: t in tables ==> t in r.0 && tables[t] <= r.0[t]
    decreases |locations|
  {
    if locations == [] then (tables, None)
    else
      var outcome := ReadDataResult(locations[0], disk(locations[0]));
      if outcome.Crash? then (tables, Some(outcome.fault))
      else Import(Stored(tables, outcome), locations[1..], disk)
  }

  /** Files that cannot be opened insert nothing and stop nothing. */
  lemma {:induction false} ImportOfUnreadableFiles(tables: map<Table, seq<Row>>, locations: seq<string>,
                                                   disk: string -> Option<seq<string>>)
    requires forall i :: 0 <= i < |locations| ==> disk(locations[i]).None?
    ensures Import(tables, locations, disk) == (tables, None)
  {
    if locations != [] {
      ImportOfUnreadableFiles(tables, locations[1..], disk);
    }
  }

  class TagDatabase {
    var tables: map<Table, seq<Row>>

    constructor ()
      ensures tables == map[]
    {
      tables := map[];
    }

    method ReadData(location: string, file: Option<seq<string>>) returns (outcome: ReadOutcome)
      modifies this
      ensures outcome == ReadDataResult(location, file)
      ensures tables == Stored(old(tables), outcome)
    {
      if file.None? {
        // opening the reader throws FileNotFoundException, which the handler catches
        return FileNotRead;
      }
      var lines := file.value;
      var table := TableFor(location);
      if table.None? {
        // no case matched: the statement is still null when the batch is executed
        return Crash(NullPointer);
      }
      var t := table.value;
      var body := Body(lines);
      var split := SplitLines(body);  // every line split at its tabs, before the loop
      var batch: seq<Row> := [];
      var next := 0;
      while next < |body|
        invariant 0 <= next <= |body|
        invariant Rows(t, split[..next]) == Ok(batch)
        invariant tables == old(tables)
      {
        var parts := split[next];
        var row := NormaliseFields(parts, Arity(t));
        RowsStep(t, split, next);
        if row.Err? {
          RowsKeepFirstFault(t, split, next + 1);
          return Crash(row.error);
        }
        batch := batch + [row.value];
        next := next + 1;
      }
      assert split[..next] == split;
      tables := Append(tables, t, batch);
      return Inserted(t, batch);
    }

    method ImportTagData(locations: seq<string>, disk: string -> Option<seq<string>>) returns (fault: Option<Fault>)
      modifies this
      ensures (tables, fault) == Import(old(tables), locations, disk)
    {
      var i := 0;
      while i < |locations|
        invariant 0 <= i <= |locations|
        invariant Import(old(tables), locations, disk) == Import(tables, locations[i..], disk)
      {
        assert locations[i..][1..] == locations[i + 1..];
        var outcome := ReadData(locations[i], disk(locations[i]));
        if outcome.Crash? {
          return Some(outcome.fault);
        }
        i := i + 1;
      }
      return None;
    }
  }
}
