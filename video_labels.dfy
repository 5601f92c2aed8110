/** The label table of the gesture dataset (Video_Utils/generate_labels_csv.py):
    one row per video file `<gesture>_<participant>_<lighting>_<take>_...mp4`
    found under `<gesture>/<modality>/videos/`. The directory listings are
    inputs; writing the CSV file and the progress messages are not modelled. */
module VideoLabels {
  import opened PyStr
  import opened PyPath
  import opened Opt
  import opened SeqUtil

  /** An entry of a gesture folder. `videos` is the listing of its
      `videos` sub-folder, `None` when that is not a directory. */
  datatype Modality = Modality(name: string, videos: Option<seq<string>>)

  /** An entry of the dataset folder: only directories are gestures. */
  datatype GestureEntry = GestureEntry(name: string, isDir: bool, modalities: seq<Modality>)

  /** A row of `labels.csv`. */
  datatype LabelRow = LabelRow(filename: string, gesture: string, participant: string,
                               lighting: string, take: string, modality: string,
                               framesPath: string)

  const Header: seq<string> :=
    ["filename", "gesture", "participant", "lighting", "take", "modality", "frames_path"]

  /** The cells of a row, in the header's order. */
  function Cells(r: LabelRow): (cs: seq<string>)
    ensures |cs| == |Header|
    ensures cs[0] == r.filename && cs[1] == r.gesture && cs[5] == r.modality
  {
    [r.filename, r.gesture, r.participant, r.lighting, r.take, r.modality, r.framesPath]
  }

  /** The lines the CSV writer produces: the header, then each row. */
  function CsvLines(rows: seq<LabelRow>): (lines: seq<seq<string>>)
    ensures |lines| == |rows| + 1 && lines[0] == Header
    ensures forall i :: 0 <= i < |lines| ==> |lines[i]| == |Header|
    ensures forall i :: 0 <= i < |rows| ==> lines[i + 1] == Cells(rows[i])
  {
    [Header] + seq(|rows|, i requires 0 <= i < |rows| => Cells(rows[i]))
  }

  /** `file.lower().endswith(".mp4")`. */
  predicate IsMp4(file: string) {
    EndsWith(Lower(file), ".mp4")
  }

  predicate IsP(c: char) { c == 'p' }

  /** The folder the frames of `stem` go to, `gesture/modality/frames/stem`. */
  function FramesPath(gesture: string, modality: string, stem: string): string {
    Join(Join(Join(gesture, modality), "frames"), stem)
  }

  /** The row for one listed file, or `None` when the file is skipped: not
      an `.mp4`, a name not starting with `<gesture>_`, or fewer than five
      `_`-separated parts after that prefix. */
  function RowFor(gesture: string, modality: string, file: string): Option<LabelRow> {
    if !IsMp4(file) then None
    else
      var stem := SplitExtRoot(file);
      var prefix := gesture + "_";
      if !StartsWith(stem, prefix) then None
      else
        var parts := SplitOn(stem[|prefix|..], '_');
        if |parts| < 5 then None
        else Some(LabelRow(file, gesture, TrimStart(parts[0], IsP), parts[1], parts[2],
                           modality, FramesPath(gesture, modality, stem)))
  }

  function Rows(o: Option<LabelRow>): seq<LabelRow> {
    if o.Some? then [o.value] else []
  }

  /** The rows of one `videos` listing, in listing order. */
  function FileRows(gesture: string, modality: string, files: seq<string>): seq<LabelRow> {
    Concat(files, FileRowsOf(gesture, modality))
  }

  /** The row of one file of a `videos` listing, if it is accepted. */
  function FileRowsOf(gesture: string, modality: string): string -> seq<LabelRow> {
    file => Rows(RowFor(gesture, modality, file))
  }

  /** The rows of one gesture folder: a modality without a `videos`
      directory adds none. */
  function ModalityRows(gesture: string, ms: seq<Modality>): seq<LabelRow> {
    Concat(ms, VideoRows(gesture))
  }

  /** The rows of one modality of a gesture folder. */
  function VideoRows(gesture: string): Modality -> seq<LabelRow> {
    (m: Modality) => if m.videos.Some? then FileRows(gesture, m.name, m.videos.value) else []
  }

  /** The rows of the gesture folders `gs`, in order. */
  function GestureRows(gs: seq<GestureEntry>): seq<LabelRow> {
    Concat(gs, FolderRows)
  }

  /** The rows of one gesture folder. */
  function FolderRows(g: GestureEntry): seq<LabelRow> {
    ModalityRows(g.name, g.modalities)
  }

  /** The directory entries of the dataset folder, in listing order. */
  function Dirs(entries: seq<GestureEntry>): (gs: seq<GestureEntry>)
    ensures forall g :: g in gs <==> g in entries && g.isDir
  {
    if |entries| == 0 then []
    else Dirs(entries[..|entries| - 1]) + (if entries[|entries| - 1].isDir then [entries[|entries| - 1]] else [])
  }

  /** The rows `generate_labels_csv` collects. */
  function AllRows(entries: seq<GestureEntry>): seq<LabelRow> {
    GestureRows(Dirs(entries))
  }

  // ---------------------------------------------------------------------
  // The loops

  /** The innermost loop, over one `videos` listing. */
  method AddFileRows(rowsIn: seq<LabelRow>, gesture: string, modality: string, files: seq<string>)
    returns (rows: seq<LabelRow>)
    ensures rows == rowsIn + FileRows(gesture, modality, files)
  {
    rows := rowsIn;
    for k := 0 to |files|
      invariant rows == rowsIn + FileRows(gesture, modality, files[..k])
    {
      var file := files[k];
      ConcatStep(files, FileRowsOf(gesture, modality), k);
      assert FileRows(gesture, modality, files[..k + 1])
        == FileRows(gesture, modality, files[..k]) + Rows(RowFor(gesture, modality, file));
      if !IsMp4(file) {
        continue;
      }
      var stem := SplitExtRoot(file);
      var prefix := gesture + "_";
      if !StartsWith(stem, prefix) {
        continue;
      }
      var remainder := stem[|prefix|..];
      var parts := SplitOn(remainder, '_');
      if |parts| < 5 {
        continue;
      }
      var participant := TrimStart(parts[0], IsP);
      var lighting := parts[1];
      var take := parts[2];
      var framesPath := FramesPath(gesture, modality, stem);
      AppendAssoc(rowsIn, FileRows(gesture, modality, files[..k]),
                  [LabelRow(file, gesture, participant, lighting, take, modality, framesPath)]);
      rows := rows + [LabelRow(file, gesture, participant, lighting, take, modality, framesPath)];
    }
    assert files[..|files|] == files;
  }

  /** The loop over the entries of one gesture folder. */
  method AddGestureRows(rowsIn: seq<LabelRow>, gesture: string, ms: seq<Modality>)
    returns (rows: seq<LabelRow>)
    ensures rows == rowsIn + ModalityRows(gesture, ms)
  {
    rows := rowsIn;
    for j := 0 to |ms|
      invariant rows == rowsIn + ModalityRows(gesture, ms[..j])
    {
      var modality := ms[j];
      ConcatStep(ms, VideoRows(gesture), j);
      if modality.videos.None? {
        continue;
      }
      AppendAssoc(rowsIn, ModalityRows(gesture, ms[..j]),
                  FileRows(gesture, modality.name, modality.videos.value));
      rows := AddFileRows(rows, gesture, modality.name, modality.videos.value);
    }
    assert ms[..|ms|] == ms;
  }

  /** `generate_labels_csv`: the gesture folders of the dataset, each
      gesture's modalities, each modality's videos. */
  method GenerateLabels(entries: seq<GestureEntry>) returns (rows: seq<LabelRow>)
    ensures rows == AllRows(entries)
  {
    var gestures := Dirs(entries);
    rows := [];
    for i := 0 to |gestures|
      invariant rows == GestureRows(gestures[..i])
    {
      ConcatStep(gestures, FolderRows, i);
      rows := AddGestureRows(rows, gestures[i].name, gestures[i].modalities);
    }
    assert gestures[..|gestures|] == gestures;
  }

  // ---------------------------------------------------------------------
  // Properties

  /** An accepted file is an `.mp4` whose stem is the gesture, then `_`,
      then at least five `_`-separated parts: the participant (the first
      part less its leading `p`s), the lighting, the take and the rest. The
      row carries the folder's modality and points at `gesture/modality/
      frames/<stem>`. */
  lemma RowForFields(gesture: string, modality: string, file: string)
    requires RowFor(gesture, modality, file).Some?
    ensures var r := RowFor(gesture, modality, file).value;
      var stem := SplitExtRoot(file);
      IsMp4(file) && r.filename == file && r.gesture == gesture && r.modality == modality
      && r.framesPath == FramesPath(gesture, modality, stem)
      && '_' !in r.lighting && '_' !in r.take
      && (r.participant == [] || r.participant[0] != 'p')
      && exists p0, rest :: |rest| >= 2 && r.participant == TrimStart(p0, IsP)
           && stem == gesture + "_" + JoinWith([p0, r.lighting, r.take] + rest, "_")
  {
    var r := RowFor(gesture, modality, file).value;
    var stem := SplitExtRoot(file);
    var prefix := gesture + "_";
    var remainder := stem[|prefix|..];
    var parts := SplitOn(remainder, '_');
    assert r == LabelRow(file, gesture, TrimStart(parts[0], IsP), parts[1], parts[2],
                         modality, FramesPath(gesture, modality, stem));
    TrimStartShape(parts[0], IsP);
    StemParts(gesture, stem);
  }

  /** A stem that starts with `<gesture>_` is that prefix joined to the
      pieces of the rest. */
  lemma StemParts(gesture: string, stem: string)
    requires StartsWith(stem, gesture + "_")
    requires |SplitOn(stem[|gesture| + 1..], '_')| >= 3
    ensures var parts := SplitOn(stem[|gesture| + 1..], '_');
      stem == gesture + "_" + JoinWith([parts[0], parts[1], parts[2]] + parts[3..], "_")
  {
    var prefix := gesture + "_";
    PrefixSplit(stem, prefix);
    RejoinParts(stem[|prefix|..]);
  }

  /** A string that starts with `prefix` is `prefix` followed by the rest. */
  lemma PrefixSplit(stem: string, prefix: string)
    requires StartsWith(stem, prefix)
    ensures stem == prefix + stem[|prefix|..]
  {
    assert prefix == stem[..|prefix|];
  }

  /** Joining the pieces of a split with `_`, regrouped as three leading
      pieces and the rest, gives the string back. */
  lemma RejoinParts(remainder: string)
    requires |SplitOn(remainder, '_')| >= 3
    ensures var parts := SplitOn(remainder, '_');
      JoinWith([parts[0], parts[1], parts[2]] + parts[3..], "_") == remainder
  {
    var parts := SplitOn(remainder, '_');
    SplitJoin(remainder, '_');
    assert "_" == ['_'];
    assert [parts[0], parts[1], parts[2]] + parts[3..] == parts;
  }

  /** Conversely, every file named `<gesture>_<p0>_<lighting>_<take>_..._.mp4`
      with at least five parts free of `_` is accepted, with those fields. */
  lemma RowForAccepts(gesture: string, modality: string, parts: seq<string>)
    requires |parts| >= 5
    requires forall k :: 0 <= k < |parts| ==> '_' !in parts[k]
    ensures var stem := gesture + "_" + JoinWith(parts, "_");
      RowFor(gesture, modality, stem + ".mp4")
      == Some(LabelRow(stem + ".mp4", gesture, TrimStart(parts[0], IsP), parts[1], parts[2],
                       modality, FramesPath(gesture, modality, stem)))
  {
    var prefix := gesture + "_";
    var stem := prefix + JoinWith(parts, "_");
    var file := stem + ".mp4";
    Mp4Suffix(stem);
    assert stem[|gesture|] == '_';
    SplitExtOfSuffix(stem, ".mp4");
    assert StartsWith(stem, prefix);
    assert stem[|prefix|..] == JoinWith(parts, "_");
    SplitOfJoin(parts, '_');
    assert SplitOn(stem[|prefix|..], '_') == parts;
  }

  /** A name ending in `.mp4` passes the extension test. */
  lemma Mp4Suffix(stem: string)
    ensures IsMp4(stem + ".mp4")
  {
    var file := stem + ".mp4";
    assert Lower(file)[|file| - 4..] == ".mp4";
  }

  /** A row of one listing comes from one of its files, and every accepted
      file gives one. */
  lemma FileRowsMembers(gesture: string, modality: string, files: seq<string>, r: LabelRow)
    ensures r in FileRows(gesture, modality, files) <==>
      exists k :: 0 <= k < |files| && RowFor(gesture, modality, files[k]) == Some(r)
  {
    ConcatMembers(files, FileRowsOf(gesture, modality), r);
  }

  /** A row of a gesture folder comes from a modality that has a `videos`
      directory, and every such modality contributes its rows. */
  lemma ModalityRowsMembers(gesture: string, ms: seq<Modality>, r: LabelRow)
    ensures r in ModalityRows(gesture, ms) <==>
      exists j :: 0 <= j < |ms| && ms[j].videos.Some? && r in FileRows(gesture, ms[j].name, ms[j].videos.value)
  {
    ConcatMembers(ms, VideoRows(gesture), r);
  }

  /** A row of the dataset comes from one of the gesture folders, and every
      gesture folder contributes its rows. */
  lemma GestureRowsMembers(gs: seq<GestureEntry>, r: LabelRow)
    ensures r in GestureRows(gs) <==>
      exists i :: 0 <= i < |gs| && r in ModalityRows(gs[i].name, gs[i].modalities)
  {
    ConcatMembers(gs, FolderRows, r);
  }

  /** The table holds exactly the rows of accepted `.mp4` files listed in
      the `videos` directory of some modality of some gesture directory. */
  lemma RowsOrigin(entries: seq<GestureEntry>, r: LabelRow)
    ensures r in AllRows(entries) <==>
      exists g, m, f :: g in entries && g.isDir && m in g.modalities && m.videos.Some?
        && f in m.videos.value && RowFor(g.name, m.name, f) == Some(r)
  {
    if r in AllRows(entries) {
      RowsFromFile(entries, r);
    }
    if exists g, m, f :: g in entries && g.isDir && m in g.modalities && m.videos.Some?
        && f in m.videos.value && RowFor(g.name, m.name, f) == Some(r) {
      var g, m, f :| g in entries && g.isDir && m in g.modalities && m.videos.Some?
        && f in m.videos.value && RowFor(g.name, m.name, f) == Some(r);
      FileGivesRow(entries, g, m, f, r);
    }
  }

  /** Each row of the table comes from a listed file. */
  lemma RowsFromFile(entries: seq<GestureEntry>, r: LabelRow)
    requires r in AllRows(entries)
    ensures exists g, m, f :: (g in entries && g.isDir && m in g.modalities && m.videos.Some?
                               && f in m.videos.value && RowFor(g.name, m.name, f) == Some(r))
  {
    var gs := Dirs(entries);
    GestureRowsMembers(gs, r);
    var i :| 0 <= i < |gs| && r in ModalityRows(gs[i].name, gs[i].modalities);
    var g := gs[i];
    ModalityRowsMembers(g.name, g.modalities, r);
    var j :| 0 <= j < |g.modalities| && g.modalities[j].videos.Some?
      && r in FileRows(g.name, g.modalities[j].name, g.modalities[j].videos.value);
    var m := g.modalities[j];
    FileRowsMembers(g.name, m.name, m.videos.value, r);
    var k :| 0 <= k < |m.videos.value| && RowFor(g.name, m.name, m.videos.value[k]) == Some(r);
    assert g in entries && m in g.modalities && m.videos.value[k] in m.videos.value;
  }

  /** Each accepted listed file gives its row. */
  lemma FileGivesRow(entries: seq<GestureEntry>, g: GestureEntry, m: Modality, f: string, r: LabelRow)
    requires g in entries && g.isDir && m in g.modalities && m.videos.Some?
    requires f in m.videos.value && RowFor(g.name, m.name, f) == Some(r)
    ensures r in AllRows(entries)
  {
    var gs := Dirs(entries);
    var i :| 0 <= i < |gs| && gs[i] == g;
    var j :| 0 <= j < |g.modalities| && g.modalities[j] == m;
    var k :| 0 <= k < |m.videos.value| && m.videos.value[k] == f;
    FileRowsMembers(g.name, m.name, m.videos.value, r);
    ModalityRowsMembers(g.name, g.modalities, r);
    GestureRowsMembers(gs, r);
  }
}
