/** The PDF student-list extractor
    (teacher_utility/Student_list_PDF_to_XLSX/student_list_to_xlsx.py): the
    line predicates, the record scan over each page's lines, and the
    de-duplication by student ID. Page text extraction and the spreadsheet
    output are not modelled: each page is given as its list of lines. */
module StudentPdf {
  import opened PyStr
  import opened Dedup
  import opened StudentRecord
  import opened SeqUtil

  // ---------------------------------------------------------------------
  // Line predicates

  /** The CGPA pattern `[0-3](\.\d{1,2})?|4(\.0{1,2})?`, matched in full. */
  predicate CgpaShape(t: string) {
    || (|t| == 1 && '0' <= t[0] <= '3')
    || ((|t| == 3 || |t| == 4) && '0' <= t[0] <= '3' && t[1] == '.'
        && forall k :: 2 <= k < |t| ==> IsAsciiDigit(t[k]))
    || t == "4" || t == "4.0" || t == "4.00"
  }

  /** `looks_like_cgpa`: the stripped line matches the CGPA pattern. */
  predicate LooksLikeCgpa(s: string) {
    CgpaShape(Strip(s))
  }

  /** The value, in hundredths, of a string of CGPA shape. */
  function Hundredths(t: string): nat
    requires CgpaShape(t)
  {
    DigitValue(t[0]) * 100
      + (if |t| >= 3 then DigitValue(t[2]) * 10 else 0)
      + (if |t| == 4 then DigitValue(t[3]) else 0)
  }

  /** A grade written with two decimals, `d.dd`. */
  function TwoDecimals(h: nat): string
    requires h <= 400
  {
    [DigitChar(h / 100), '.', DigitChar(h / 10 % 10), DigitChar(h % 10)]
  }

  /** `is_serial_line`: the stripped line is all digits. */
  predicate IsSerialLine(s: string) {
    IsDigits(Strip(s))
  }

  /** `next_is_id_prefix`: the next line exists and ends with `-`. */
  predicate NextIsIdPrefix(lines: seq<string>, idx: nat) {
    idx + 1 < |lines| && EndsWith(Strip(lines[idx + 1]), "-")
  }

  /** `normalize_spaces`: the whitespace-separated words joined by single
      spaces. */
  function NormalizeSpaces(s: string): string {
    JoinWith(Words(s), " ")
  }

  /** `s.replace(" ", "")`. */
  function RemoveSpaces(s: string): (r: string)
    ensures ' ' !in r && |r| <= |s|
    ensures ' ' !in s ==> r == s
  {
    if s == [] then []
    else (if s[0] == ' ' then [] else [s[0]]) + RemoveSpaces(s[1..])
  }

  /** The loose student-ID pattern `\d{2}-\d{5}-\d`. */
  predicate IdPattern(c: string) {
    |c| == 10 && c[2] == '-' && c[8] == '-'
    && forall k :: 0 <= k < 10 && k != 2 && k != 8 ==> IsAsciiDigit(c[k])
  }

  /** `reconstruct_student_id`: the stripped parts joined with every space
      removed; the pattern check falls back to the same string, so it
      never changes the result. */
  function ReconstructStudentId(part1: string, part2: string): (r: string)
    ensures r == RemoveSpaces(Strip(part1) + Strip(part2))
    ensures ' ' !in r
  {
    var candidate := RemoveSpaces(Strip(part1) + Strip(part2));
    if IdPattern(candidate) then candidate else candidate
  }

  /** One of the section headings that may follow a name, after `lower()`. */
  predicate SectionHeading(w: string) {
    var l := Lower(w);
    StartsWith(l, "program") || StartsWith(l, "credits") || StartsWith(l, "credit")
    || StartsWith(l, "remarks") || StartsWith(l, "student id") || StartsWith(l, "name ")
  }

  // ---------------------------------------------------------------------
  // The scan, as functions

  /** `[ln.strip() for ln in text.splitlines() if ln.strip()]`. */
  function CleanLines(raw: seq<string>): seq<string> {
    if raw == [] then []
    else
      var w := Strip(raw[0]);
      (if w != "" then [w] else []) + CleanLines(raw[1..])
  }

  /** Line `j` ends a name block: a CGPA, an e-mail address, the next
      record's header, or a section heading. */
  predicate StopsName(lines: seq<string>, j: nat)
    requires j < |lines|
  {
    var w := Strip(lines[j]);
    LooksLikeCgpa(w) || '@' in w || (IsSerialLine(w) && NextIsIdPrefix(lines, j)) || SectionHeading(w)
  }

  /** Whether each line of the page ends a name block. */
  function Stops(lines: seq<string>): (flags: seq<bool>)
    ensures |flags| == |lines|
  {
    StopsUpTo(lines, |lines|)
  }

  /** The stop flags of the first `n` lines. */
  function StopsUpTo(lines: seq<string>, n: nat): (flags: seq<bool>)
    requires n <= |lines|
    ensures |flags| == n
  {
    if n == 0 then [] else StopsUpTo(lines, n - 1) + [StopsName(lines, n - 1)]
  }

  /** The flag of line `j` is its stop test. */
  lemma {:induction false} StopsUpToIndex(lines: seq<string>, n: nat, j: nat)
    requires j < n <= |lines|
    ensures StopsUpTo(lines, n)[j] == StopsName(lines, j)
  {
    if j < n - 1 {
      StopsUpToIndex(lines, n - 1, j);
    }
  }

  /** Where a name block stopped and the name lines it gathered. */
  datatype NameBlockEnd = NameBlockEnd(stop: nat, parts: seq<string>)

  /** The name loop from line `j` of a block starting at `start`: stop at a
      stop line or the end of the page; otherwise gather the line (if not
      blank), move on, and give up once more than ten lines past `start`. */
  function NameBlock(lines: seq<string>, stops: seq<bool>, start: nat, j: nat): (r: NameBlockEnd)
    requires |stops| == |lines| && start <= j <= start + 10
    ensures j <= r.stop <= start + 11
    decreases |lines| - j
  {
    if j >= |lines| || stops[j] then NameBlockEnd(j, [])
    else
      var w := Strip(lines[j]);
      var here := if w != "" then [w] else [];
      if j + 1 - start > 10 then NameBlockEnd(j + 1, here)
      else
        var rest := NameBlock(lines, stops, start, j + 1);
        NameBlockEnd(rest.stop, here + rest.parts)
  }

  /** The name block of the record whose serial line is `i`. */
  function RecordBlock(lines: seq<string>, i: nat): NameBlockEnd {
    NameBlock(lines, Stops(lines), i + 3, i + 3)
  }

  /** The student ID of the record whose serial line is `i`. */
  function RecordId(lines: seq<string>, i: nat): string
    requires i + 1 < |lines|
  {
    ReconstructStudentId(Strip(lines[i + 1]), if i + 2 < |lines| then Strip(lines[i + 2]) else "")
  }

  /** The name of the record whose serial line is `i`. */
  function RecordName(lines: seq<string>, i: nat): string {
    NormalizeSpaces(JoinWith(RecordBlock(lines, i).parts, " "))
  }

  /** Line `i` starts a record. */
  predicate RecordStart(lines: seq<string>, i: nat)
    requires i < |lines|
  {
    IsSerialLine(lines[i]) && NextIsIdPrefix(lines, i)
  }

  /** The records found from line `i` on. */
  function ScanPage(lines: seq<string>, i: nat): seq<Student>
    decreases |lines| - i
  {
    if i >= |lines| then []
    else if RecordStart(lines, i) then
      var id, name := RecordId(lines, i), RecordName(lines, i);
      (if id != "" && name != "" then [Student(id, name)] else [])
        + ScanPage(lines, RecordBlock(lines, i).stop)
    else ScanPage(lines, i + 1)
  }

  /** The records of all pages, in page order. */
  function AllStudents(pages: seq<seq<string>>): seq<Student> {
    if pages == [] then []
    else AllStudents(pages[..|pages| - 1]) + ScanPage(CleanLines(pages[|pages| - 1]), 0)
  }

  // ---------------------------------------------------------------------
  // The scan, as the source runs it

  /** The four stop tests of the name loop, in the order the source makes
      them. */
  method StopsAt(lines: seq<string>, j: nat) returns (stop: bool)
    requires j < |lines|
    ensures stop == Stops(lines)[j]
  {
    StopsUpToIndex(lines, |lines|, j);
    var w := Strip(lines[j]);
    // a CGPA
    if LooksLikeCgpa(w) {
      return true;
    }
    // an e-mail address
    if '@' in w {
      return true;
    }
    // the next record's header
    if IsSerialLine(w) && NextIsIdPrefix(lines, j) {
      return true;
    }
    // a section heading
    if SectionHeading(w) {
      return true;
    }
    return false;
  }

  /** The name loop of one record starting at `start`. */
  method CollectName(lines: seq<string>, start: nat) returns (j: nat, nameParts: seq<string>)
    ensures NameBlock(lines, Stops(lines), start, start) == NameBlockEnd(j, nameParts)
  {
    ghost var stops := Stops(lines);
    ghost var block := NameBlock(lines, stops, start, start);
    ghost var rest := block;
    nameParts := [];
    j := start;
    while j < |lines|
      invariant start <= j <= start + 10
      invariant rest == NameBlock(lines, stops, start, j)
      invariant rest.stop == block.stop && nameParts + rest.parts == block.parts
      decreases |lines| - j
    {
      ghost var before := nameParts;
      var w := Strip(lines[j]);
      var stop := StopsAt(lines, j);
      if stop {
        break;
      }
      assert !stops[j];
      ghost var here: seq<string> := if w != "" then [w] else [];
      if w != "" {
        nameParts := nameParts + [w];
      } else {
        assert nameParts == before + [];
      }
      if j + 1 - start <= 10 {
        NameBlockAdvance(lines, stops, start, j, before, here);
        rest := NameBlock(lines, stops, start, j + 1);
      }
      j := j + 1;
      if j - start > 10 {
        return;
      }
    }
    assert nameParts + [] == nameParts;
  }

  /** One step of the name loop past a line that is not a stop line and
      is not the last one the guard allows. */
  lemma NameBlockAdvance(lines: seq<string>, stops: seq<bool>, start: nat, j: nat,
                         parts: seq<string>, here: seq<string>)
    requires |stops| == |lines| && start <= j < start + 10 && j < |lines| && !stops[j]
    requires here == if Strip(lines[j]) != "" then [Strip(lines[j])] else []
    ensures NameBlock(lines, stops, start, j).stop == NameBlock(lines, stops, start, j + 1).stop
    ensures parts + NameBlock(lines, stops, start, j).parts
      == (parts + here) + NameBlock(lines, stops, start, j + 1).parts
  {
    var rest := NameBlock(lines, stops, start, j + 1);
    assert NameBlock(lines, stops, start, j) == NameBlockEnd(rest.stop, here + rest.parts);
    AppendAssoc(parts, here, rest.parts);
  }

  /** The record loop over one page's cleaned lines: each record found is
      appended to `students`, and the scan resumes where the name stopped. */
  method ScanLines(lines: seq<string>, studentsIn: seq<Student>) returns (students: seq<Student>)
    ensures students == studentsIn + ScanPage(lines, 0)
  {
    students := studentsIn;
    var i := 0;
    while i < |lines|
      invariant studentsIn + ScanPage(lines, 0) == students + ScanPage(lines, i)
      decreases |lines| - i
    {
      var line := lines[i];
      if IsSerialLine(line) && NextIsIdPrefix(lines, i) {
        var idPart1 := Strip(lines[i + 1]);
        var idPart2 := if i + 2 < |lines| then Strip(lines[i + 2]) else "";
        var studentId := ReconstructStudentId(idPart1, idPart2);
        var j, nameParts := CollectName(lines, i + 3);
        var name := NormalizeSpaces(JoinWith(nameParts, " "));
        ghost var kept := if studentId != "" && name != "" then [Student(studentId, name)] else [];
        ScanPageStep(lines, i, students);
        if studentId != "" && name != "" {
          students := students + [Student(studentId, name)];
        } else {
          assert students + kept == students;
        }
        i := j;
      } else {
        i := i + 1;
      }
    }
    assert students + [] == students;
  }

  /** One record of the scan: what it keeps, then the scan from where its
      name stopped. */
  lemma ScanPageStep(lines: seq<string>, i: nat, before: seq<Student>)
    requires i < |lines| && RecordStart(lines, i)
    ensures var id, name := RecordId(lines, i), RecordName(lines, i);
      var kept := if id != "" && name != "" then [Student(id, name)] else [];
      before + ScanPage(lines, i) == (before + kept) + ScanPage(lines, RecordBlock(lines, i).stop)
  {
    var id, name := RecordId(lines, i), RecordName(lines, i);
    var kept := if id != "" && name != "" then [Student(id, name)] else [];
    var rest := ScanPage(lines, RecordBlock(lines, i).stop);
    assert ScanPage(lines, i) == kept + rest;
    AppendAssoc(before, kept, rest);
  }

  /** `extract_students_from_pdf`: scan every page's cleaned lines for
      records, keep those with an ID and a name, then de-duplicate. */
  method ExtractStudentsFromPdf(pages: seq<seq<string>>) returns (unique: seq<Student>)
    ensures unique == KeepFirst(AllStudents(pages), IdOf)
  {
    var students: seq<Student> := [];
    for p := 0 to |pages|
      invariant students == AllStudents(pages[..p])
    {
      var lines := CleanLines(pages[p]);
      students := ScanLines(lines, students);
      assert pages[..p + 1][..p] == pages[..p];
    }
    assert pages[..|pages|] == pages;
    unique := UniqueStudents(students);
  }

  // ---------------------------------------------------------------------
  // Properties

  /** Every accepted CGPA is between 0.00 and 4.00. */
  lemma CgpaAtMostFour(t: string)
    requires CgpaShape(t)
    ensures Hundredths(t) <= 400
  {
  }

  /** Every grade from 0.00 to 4.00, written with two decimals, is
      accepted and reads back as itself. */
  lemma CgpaAcceptsEveryGrade(h: nat)
    requires h <= 400
    ensures CgpaShape(TwoDecimals(h)) && Hundredths(TwoDecimals(h)) == h
  {
    var t := TwoDecimals(h);
    if h == 400 {
      assert t == "4.00";
    } else {
      assert h / 100 <= 3;
    }
  }

  /** `normalize_spaces` leaves no whitespace at either end and no two
      whitespace characters in a row, and normalising again changes
      nothing. */
  lemma NormalizeSpacesShape(s: string)
    ensures var r := NormalizeSpaces(s);
      && (r != [] ==> !IsSpace(r[0]) && !IsSpace(r[|r| - 1]))
      && (forall k :: 0 <= k < |r| && IsSpace(r[k]) ==> r[k] == ' ' && k + 1 < |r| && !IsSpace(r[k + 1]))
      && NormalizeSpaces(r) == r
  {
    JoinWordsShape(Words(s));
    WordsOfJoin(Words(s));
  }

  /** The name loop over the stop flags: every line it passed is on the
      page and not flagged; it stopped at a flagged line, the end of the
      page, or eleven lines past the start; and it gathered at most one
      name line per line passed. */
  lemma {:induction false} NameBlockFacts(lines: seq<string>, stops: seq<bool>, start: nat, j: nat)
    requires |stops| == |lines| && start <= j <= start + 10
    ensures var r := NameBlock(lines, stops, start, j);
      && (j < |lines| ==> r.stop <= |lines|)
      && (forall k :: j <= k < r.stop && k < |lines| ==> !stops[k])
      && (r.stop >= |lines| || stops[r.stop] || r.stop == start + 11)
      && |r.parts| <= r.stop - j
    decreases |lines| - j
  {
    var r := NameBlock(lines, stops, start, j);
    if j >= |lines| || stops[j] {
      assert r.stop == j && r.parts == [];
    } else if j + 1 - start > 10 {
      assert r.stop == start + 11 && |r.parts| <= 1;
    } else {
      var rest := NameBlock(lines, stops, start, j + 1);
      NameBlockFacts(lines, stops, start, j + 1);
      assert r.stop == rest.stop && |r.parts| <= 1 + |rest.parts|;
    }
  }

  /** The name block of a record: no line it passed is a stop line; it
      ends at a stop line, at the end of the page, or eleven lines after
      the name starts; and it holds at most eleven name lines. */
  lemma RecordBlockFacts(lines: seq<string>, i: nat)
    ensures var r := RecordBlock(lines, i);
      && i + 3 <= r.stop
      && (i + 3 < |lines| ==> r.stop <= |lines|)
      && (forall k :: i + 3 <= k < r.stop && k < |lines| ==> !StopsName(lines, k))
      && (r.stop >= |lines| || StopsName(lines, r.stop) || r.stop == i + 14)
      && |r.parts| <= 11
  {
    var r := RecordBlock(lines, i);
    var flags := Stops(lines);
    NameBlockFacts(lines, flags, i + 3, i + 3);
    forall k | i + 3 <= k < r.stop && k < |lines|
      ensures !StopsName(lines, k)
    {
      StopsUpToIndex(lines, |lines|, k);
    }
    if r.stop < |lines| {
      StopsUpToIndex(lines, |lines|, r.stop);
    }
  }

  /** Every record kept has an ID without spaces, a non-empty name, and a
      name already in normal form; and it is the record of a header line
      at or after `i`. */
  lemma {:induction false} ScanPageRecords(lines: seq<string>, i: nat)
    ensures forall st :: st in ScanPage(lines, i) ==>
      && st.id != "" && ' ' !in st.id && st.name != "" && NormalizeSpaces(st.name) == st.name
      && exists k :: i <= k < |lines| && RecordStart(lines, k)
                     && st.id == RecordId(lines, k) && st.name == RecordName(lines, k)
    decreases |lines| - i
  {
    if i < |lines| {
      if RecordStart(lines, i) {
        ScanPageRecords(lines, RecordBlock(lines, i).stop);
        NormalizeSpacesShape(JoinWith(RecordBlock(lines, i).parts, " "));
      } else {
        ScanPageRecords(lines, i + 1);
      }
    }
  }

  /** The cleaned lines are the stripped non-blank lines of the page, in
      order: none is blank, none has whitespace left to strip, and there
      are no more of them than raw lines. */
  lemma {:induction false} CleanLinesShape(raw: seq<string>)
    ensures var lines := CleanLines(raw);
      && |lines| <= |raw|
      && forall k :: 0 <= k < |lines| ==> lines[k] != "" && Strip(lines[k]) == lines[k]
  {
    if raw != [] {
      CleanLinesShape(raw[1..]);
      StripIdempotent(raw[0]);
    }
  }

  /** The final list: distinct IDs, the first row of each ID kept as it
      was, in input order, and every ID of the input present. */
  lemma ExtractedUnique(pages: seq<seq<string>>)
    ensures var u := KeepFirst(AllStudents(pages), IdOf);
      && DistinctKeys(u, IdOf)
      && KeySet(u, IdOf) == KeySet(AllStudents(pages), IdOf)
      && u == FirstOccurrences(AllStudents(pages), IdOf)
  {
    KeepFirstDistinct(AllStudents(pages), IdOf);
    KeepFirstKeys(AllStudents(pages), IdOf);
    KeepFirstIsFirstOccurrences(AllStudents(pages), IdOf);
  }
}
