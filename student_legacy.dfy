/** The first student-list script (teacher_utility/student_list_to_xlsx.py):
    a record is a serial-number line, the two lines of the student ID, and
    the name lines up to a `0.00` marker; rows are then de-duplicated by ID.
    Each page is given as its raw lines (`splitlines()`), unstripped. */
module StudentLegacy {
  import opened PyStr
  import opened Dedup
  import opened StudentRecord
  import opened SeqUtil

  /** Line `i` starts a record: its stripped text is all digits and the
      next stripped line ends with `-`. */
  predicate HeaderAt(lines: seq<string>, i: nat)
    requires i < |lines|
  {
    IsDigits(Strip(lines[i])) && i + 1 < |lines| && EndsWith(Strip(lines[i + 1]), "-")
  }

  /** The student ID of the record at `i`: the two stripped ID lines
      concatenated, the second one empty past the end of the page. */
  function LegacyId(lines: seq<string>, i: nat): string
    requires i + 1 < |lines|
  {
    Strip(lines[i + 1]) + (if i + 2 < |lines| then Strip(lines[i + 2]) else "")
  }

  /** `name += " " + w` when the name is non-empty, else `name = w`. */
  function Extend(name: string, w: string): string {
    if name != "" then name + " " + w else w
  }

  /** Where the name loop stopped and the name it built. */
  datatype NameEnd = NameEnd(stop: nat, name: string)

  /** The name loop from line `j` with the name built so far: it runs to
      the end of the page or to a line whose stripped text is `0.00`. */
  function NameLoop(lines: seq<string>, j: nat, name: string): (r: NameEnd)
    ensures j <= r.stop
    decreases |lines| - j
  {
    if j >= |lines| || Strip(lines[j]) == "0.00" then NameEnd(j, name)
    else NameLoop(lines, j + 1, Extend(name, Strip(lines[j])))
  }

  /** The stripped lines of the name block starting at `j`. */
  function Block(lines: seq<string>, j: nat): seq<string>
    decreases |lines| - j
  {
    if j >= |lines| || Strip(lines[j]) == "0.00" then []
    else [Strip(lines[j])] + Block(lines, j + 1)
  }

  /** The records found from line `i` on. */
  function ScanRaw(lines: seq<string>, i: nat): seq<Student>
    decreases |lines| - i
  {
    if i >= |lines| then []
    else if HeaderAt(lines, i) then
      var id := LegacyId(lines, i);
      var r := NameLoop(lines, i + 3, "");
      (if id != "" && r.name != "" then [Student(id, r.name)] else []) + ScanRaw(lines, r.stop)
    else ScanRaw(lines, i + 1)
  }

  /** The records of all pages, in page order. */
  function AllRaw(pages: seq<seq<string>>): seq<Student> {
    if pages == [] then []
    else AllRaw(pages[..|pages| - 1]) + ScanRaw(pages[|pages| - 1], 0)
  }

  // ---------------------------------------------------------------------
  // The script, as it runs

  /** The name loop of a record whose name starts at line `start`. */
  method AccumulateName(lines: seq<string>, start: nat) returns (j: nat, name: string)
    ensures NameLoop(lines, start, "") == NameEnd(j, name)
  {
    name := "";
    j := start;
    while j < |lines| && Strip(lines[j]) != "0.00"
      invariant NameLoop(lines, start, "") == NameLoop(lines, j, name)
      decreases |lines| - j
    {
      var w := Strip(lines[j]);
      assert NameLoop(lines, j, name) == NameLoop(lines, j + 1, Extend(name, w));
      if name != "" {
        name := name + " " + w;
      } else {
        name := w;
      }
      j := j + 1;
    }
    assert NameLoop(lines, j, name) == NameEnd(j, name);
  }

  /** The record loop over one page's raw lines, appending to `students`. */
  method ScanRawLines(lines: seq<string>, studentsIn: seq<Student>) returns (students: seq<Student>)
    ensures students == studentsIn + ScanRaw(lines, 0)
  {
    students := studentsIn;
    var i := 0;
    while i < |lines|
      invariant studentsIn + ScanRaw(lines, 0) == students + ScanRaw(lines, i)
      decreases |lines| - i
    {
      var line := Strip(lines[i]);
      if IsDigits(line) && i + 1 < |lines| && EndsWith(Strip(lines[i + 1]), "-") {
        var idPart1 := Strip(lines[i + 1]);
        var idPart2 := if i + 2 < |lines| then Strip(lines[i + 2]) else "";
        var studentId := idPart1 + idPart2;
        var j, name := AccumulateName(lines, i + 3);
        ghost var kept := if studentId != "" && name != "" then [Student(studentId, name)] else [];
        ScanRawStep(lines, i, students);
        if studentId != "" && name != "" {
          students := students + [Student(studentId, name)];
        } else {
          assert students + kept == students;
        }
        i := j;
      } else {
        i := i + 1;
      }
    }
    assert students + [] == students;
  }

  /** One record of the scan: what it keeps, then the scan from where its
      name stopped. */
  lemma ScanRawStep(lines: seq<string>, i: nat, before: seq<Student>)
    requires i < |lines| && HeaderAt(lines, i)
    ensures var id, r := LegacyId(lines, i), NameLoop(lines, i + 3, "");
      var kept := if id != "" && r.name != "" then [Student(id, r.name)] else [];
      before + ScanRaw(lines, i) == (before + kept) + ScanRaw(lines, r.stop)
  {
    var id, r := LegacyId(lines, i), NameLoop(lines, i + 3, "");
    var kept := if id != "" && r.name != "" then [Student(id, r.name)] else [];
    var rest := ScanRaw(lines, r.stop);
    assert ScanRaw(lines, i) == kept + rest;
    AppendAssoc(before, kept, rest);
  }

  /** The whole script: every page scanned in order, then de-duplicated
      by student ID. */
  method ExtractLegacy(pages: seq<seq<string>>) returns (unique: seq<Student>)
    ensures unique == KeepFirst(AllRaw(pages), IdOf)
  {
    var students: seq<Student> := [];
    for p := 0 to |pages|
      invariant students == AllRaw(pages[..p])
    {
      students := ScanRawLines(pages[p], students);
      assert pages[..p + 1][..p] == pages[..p];
    }
    assert pages[..|pages|] == pages;
    unique := UniqueStudents(students);
  }

  // ---------------------------------------------------------------------
  // Properties

  /** The name loop stops at the end of the page or at the first `0.00`
      line at or after `j`, and passes no `0.00` line on the way. */
  lemma {:induction false} NameLoopStops(lines: seq<string>, j: nat, name: string)
    ensures var r := NameLoop(lines, j, name);
      && (j <= |lines| ==> r.stop <= |lines|)
      && (r.stop >= |lines| || Strip(lines[r.stop]) == "0.00")
      && forall k :: j <= k < r.stop ==> k < |lines| && Strip(lines[k]) != "0.00"
    decreases |lines| - j
  {
    if j < |lines| && Strip(lines[j]) != "0.00" {
      var next := Extend(name, Strip(lines[j]));
      NameLoopStops(lines, j + 1, next);
      assert NameLoop(lines, j, name) == NameLoop(lines, j + 1, next);
    } else {
      assert NameLoop(lines, j, name) == NameEnd(j, name);
    }
  }

  /** Building on a non-empty name appends the block's lines, each after a
      single space. */
  lemma {:induction false} NameLoopOnto(lines: seq<string>, j: nat, name: string)
    requires name != ""
    ensures var b := Block(lines, j);
      NameLoop(lines, j, name).name == if b == [] then name else name + " " + JoinWith(b, " ")
    decreases |lines| - j
  {
    if j < |lines| && Strip(lines[j]) != "0.00" {
      var w := Strip(lines[j]);
      var b := Block(lines, j);
      var b1 := Block(lines, j + 1);
      assert b == [w] + b1;
      NameLoopOnto(lines, j + 1, name + " " + w);
      if b1 != [] {
        assert JoinWith(b, " ") == w + " " + JoinWith(b1, " ");
        assert name + " " + w + " " + JoinWith(b1, " ") == name + " " + (w + " " + JoinWith(b1, " "));
      }
    }
  }

  /** The name is the block's lines joined by single spaces, once the
      leading blank lines are dropped (a blank line after the first
      non-blank one still adds a space). */
  lemma {:induction false} NameIsJoinedBlock(lines: seq<string>, j: nat)
    ensures NameLoop(lines, j, "").name == JoinWith(DropBlank(Block(lines, j)), " ")
    decreases |lines| - j
  {
    if j < |lines| && Strip(lines[j]) != "0.00" {
      var w := Strip(lines[j]);
      var b1 := Block(lines, j + 1);
      assert Block(lines, j) == [w] + b1;
      assert NameLoop(lines, j, "") == NameLoop(lines, j + 1, w);
      if w == "" {
        NameIsJoinedBlock(lines, j + 1);
        BlankHead(b1);
      } else {
        NameLoopOnto(lines, j + 1, w);
        JoinCons(w, b1);
      }
    }
  }

  /** A leading blank string is dropped. */
  lemma BlankHead(b: seq<string>)
    ensures DropBlank([""] + b) == DropBlank(b)
  {
    assert ([""] + b)[1..] == b;
  }

  /** Joining a first word onto the rest. */
  lemma JoinCons(w: string, b: seq<string>)
    requires w != ""
    ensures DropBlank([w] + b) == [w] + b
    ensures JoinWith([w] + b, " ") == if b == [] then w else w + " " + JoinWith(b, " ")
  {
    assert ([w] + b)[1..] == b;
  }

  /** The leading empty strings dropped. */
  function DropBlank(ws: seq<string>): (r: seq<string>)
    ensures r == [] || r[0] != ""
    ensures |r| <= |ws| && r == ws[|ws| - |r|..]
  {
    if ws != [] && ws[0] == "" then DropBlank(ws[1..]) else ws
  }

  /** A name is kept exactly when some line of its block is not blank. */
  lemma NameNonEmpty(lines: seq<string>, j: nat)
    ensures NameLoop(lines, j, "").name != "" <==> exists k :: 0 <= k < |Block(lines, j)| && Block(lines, j)[k] != ""
  {
    var b := Block(lines, j);
    NameIsJoinedBlock(lines, j);
    DropBlankNonEmpty(b);
    var d := DropBlank(b);
    if d != [] {
      assert JoinWith(d, " ") != "" by {
        JoinHead(d);
      }
    }
  }

  /** `DropBlank` leaves something exactly when some string is non-empty. */
  lemma {:induction false} DropBlankNonEmpty(ws: seq<string>)
    ensures DropBlank(ws) != [] <==> exists k :: 0 <= k < |ws| && ws[k] != ""
  {
    if ws != [] && ws[0] == "" {
      DropBlankNonEmpty(ws[1..]);
      if exists k :: 0 <= k < |ws| && ws[k] != "" {
        var k :| 0 <= k < |ws| && ws[k] != "";
        assert ws[1..][k - 1] != "";
      }
    }
  }

  /** A join starts with its first string. */
  lemma JoinHead(ws: seq<string>)
    requires ws != []
    ensures ws[0] <= JoinWith(ws, " ")
  {
  }

  /** The ID of a record is never empty (its first part ends with `-`), so
      a record is kept exactly when its name is non-empty. */
  lemma LegacyIdNonEmpty(lines: seq<string>, i: nat)
    requires i < |lines| && HeaderAt(lines, i)
    ensures LegacyId(lines, i) != "" && Strip(lines[i + 1]) <= LegacyId(lines, i)
  {
  }

  /** Every row found has an ID that starts with a part ending in `-` and
      a non-empty name, and belongs to a header line at or after `i`. */
  lemma {:induction false} ScanRawRecords(lines: seq<string>, i: nat)
    ensures forall st :: st in ScanRaw(lines, i) ==>
      && st.id != "" && st.name != ""
      && exists k :: i <= k < |lines| && HeaderAt(lines, k)
                     && st.id == LegacyId(lines, k) && st.name == NameLoop(lines, k + 3, "").name
    decreases |lines| - i
  {
    if i < |lines| {
      if HeaderAt(lines, i) {
        var r := NameLoop(lines, i + 3, "");
        ScanRawRecords(lines, r.stop);
      } else {
        ScanRawRecords(lines, i + 1);
      }
    }
  }

  /** The scan moves forward: a record resumes at least three lines later. */
  lemma RecordAdvances(lines: seq<string>, i: nat)
    requires i < |lines| && HeaderAt(lines, i)
    ensures NameLoop(lines, i + 3, "").stop >= i + 3
  {
  }
}
