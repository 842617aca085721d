/** `monitor_library`: gather the records of a library section and decide
    which CSV files are written with which content. */
module Library {
  import opened Wrappers
  import opened Plex
  import opened Records
  import opened Naming
  import opened Setup

  /** The records one library item contributes. */
  function ItemRecords(item: Item): (r: seq<Record>)
    ensures item.MovieItem? ==> |r| == 1 && r[0].kind == Str("Movie")
    ensures item.MovieItem? ==> r == [MovieRecord(item.movie)]
    ensures item.ShowItem? ==> |r| == Delivered(item.show)
    ensures item.ShowItem? ==> forall k :: 0 <= k < |r| ==> r[k] == EpisodeRecord(item.show, item.show.episodes[k])
    ensures item.OtherItem? ==> r == []
  {
    match item
    case MovieItem(m) => [MovieRecord(m)]
    case ShowItem(s) => ShowRecords(s)
    case OtherItem => []
  }

  /** `f` applied to each element, the results concatenated in order. */
  function FlatMap<T, U>(f: T -> seq<U>, xs: seq<T>): seq<U>
  {
    if xs == [] then [] else f(xs[0]) + FlatMap(f, xs[1..])
  }

  /** The result is empty exactly when every element maps to nothing. */
  lemma {:induction false} FlatMapEmpty<T, U>(f: T -> seq<U>, xs: seq<T>)
    ensures FlatMap(f, xs) == [] <==> forall i :: 0 <= i < |xs| ==> f(xs[i]) == []
    decreases |xs|
  {
    if xs != [] {
      FlatMapEmpty(f, xs[1..]);
      assert forall i :: 1 <= i < |xs| ==> xs[i] == xs[1..][i - 1];
    }
  }

  lemma {:induction false} FlatMapAppend<T, U>(f: T -> seq<U>, a: seq<T>, b: seq<T>)
    ensures FlatMap(f, a + b) == FlatMap(f, a) + FlatMap(f, b)
    decreases |a|
  {
    if a == [] {
      assert a + b == b;
    } else {
      var tail := a[1..];
      FlatMapAppend(f, tail, b);
      var ab := a + b;
      assert ab[0] == a[0] && ab[1..] == tail + b;
      var x, y, z := f(a[0]), FlatMap(f, tail), FlatMap(f, b);
      assert FlatMap(f, ab) == x + (y + z);
      assert FlatMap(f, a) == x + y;
      assert x + (y + z) == (x + y) + z;
    }
  }

  /** An element that maps to nothing can be dropped. */
  lemma FlatMapSkipsEmpty<T, U>(f: T -> seq<U>, a: seq<T>, x: T, b: seq<T>)
    requires f(x) == []
    ensures FlatMap(f, a + [x] + b) == FlatMap(f, a + b)
  {
    FlatMapAppend(f, a + [x], b);
    FlatMapAppend(f, a, [x]);
    FlatMapAppend(f, a, b);
    assert FlatMap(f, [x]) == [];
  }

  /** A property every element's results have holds of the whole result. */
  lemma {:induction false} FlatMapAll<T, U>(f: T -> seq<U>, xs: seq<T>, p: U -> bool)
    requires forall i :: 0 <= i < |xs| ==> forall u :: u in f(xs[i]) ==> p(u)
    ensures forall u :: u in FlatMap(f, xs) ==> p(u)
    decreases |xs|
  {
    if xs != [] {
      FlatMapAll(f, xs[1..], p);
      assert forall u :: u in f(xs[0]) ==> p(u);
    }
  }

  /** All records of a library, item by item in enumeration order. */
  function CollectRecords(items: seq<Item>): (r: seq<Record>)
    ensures r == [] <==> forall i :: 0 <= i < |items| ==> ItemRecords(items[i]) == []
  {
    FlatMapEmpty(ItemRecords, items);
    FlatMap(ItemRecords, items)
  }

  /** Collecting is compositional: the records of two runs of items are the
      records of the first followed by those of the second. */
  lemma CollectAppend(a: seq<Item>, b: seq<Item>)
    ensures CollectRecords(a + b) == CollectRecords(a) + CollectRecords(b)
  {
    FlatMapAppend(ItemRecords, a, b);
  }

  /** Taking one more element appends that element's results. */
  lemma FlatMapStep<T, U>(f: T -> seq<U>, xs: seq<T>, i: nat)
    requires i < |xs|
    ensures FlatMap(f, xs[..i + 1]) == FlatMap(f, xs[..i]) + f(xs[i])
  {
    var x := xs[i];
    FlatMapAppend(f, xs[..i], [x]);
    assert xs[..i + 1] == xs[..i] + [x];
    assert [x][1..] == [];
    assert FlatMap(f, [x]) == f(x) + [];
    assert f(x) + [] == f(x);
  }

  /** Collecting one more item appends that item's records. */
  lemma CollectStep(items: seq<Item>, i: nat)
    requires i < |items|
    ensures CollectRecords(items[..i + 1]) == CollectRecords(items[..i]) + ItemRecords(items[i])
  {
    FlatMapStep(ItemRecords, items, i);
  }

  /** Items that are neither movies nor shows contribute nothing. */
  lemma OtherItemsSkipped(a: seq<Item>, b: seq<Item>)
    ensures CollectRecords(a + [OtherItem] + b) == CollectRecords(a + b)
  {
    FlatMapSkipsEmpty(ItemRecords, a, OtherItem, b);
  }

  /** Every record of a library is a movie record or an episode record. */
  lemma CollectedKinds(items: seq<Item>)
    ensures forall r :: r in CollectRecords(items) ==> r.kind == Str("Movie") || r.kind == Str("Episode")
  {
    var isKnown := (r: Record) => r.kind == Str("Movie") || r.kind == Str("Episode");
    forall i | 0 <= i < |items|
      ensures forall r :: r in ItemRecords(items[i]) ==> isKnown(r)
    {
      match items[i]
      case MovieItem(m) =>
      case ShowItem(s) =>
        forall r | r in ShowRecords(s) ensures isKnown(r) {
          var k :| 0 <= k < |ShowRecords(s)| && ShowRecords(s)[k] == r;
        }
      case OtherItem =>
    }
    FlatMapAll(ItemRecords, items, isKnown);
  }

  /** When every element maps to exactly one result, the results line up
      with the elements. */
  lemma {:induction false} FlatMapSingletons<T, U>(f: T -> seq<U>, xs: seq<T>)
    requires forall i :: 0 <= i < |xs| ==> |f(xs[i])| == 1
    ensures |FlatMap(f, xs)| == |xs|
    ensures forall i :: 0 <= i < |xs| ==> FlatMap(f, xs)[i] == f(xs[i])[0]
    decreases |xs|
  {
    if xs != [] {
      FlatMapSingletons(f, xs[1..]);
      assert f(xs[0]) == [f(xs[0])[0]];
    }
  }

  /** A library of movies only gives one record per movie, in order. */
  lemma MoviesOnly(items: seq<Item>)
    requires forall i :: 0 <= i < |items| ==> items[i].MovieItem?
    ensures |CollectRecords(items)| == |items|
    ensures forall i :: 0 <= i < |items| ==> CollectRecords(items)[i] == MovieRecord(items[i].movie)
  {
    FlatMapSingletons(ItemRecords, items);
  }

  /** A file location: the output directory and a file name in it. */
  datatype Path = Path(dir: string, name: string)

  /** One CSV file as written: its path, header and rows. */
  datatype CsvFile = CsvFile(path: Path, header: seq<string>, rows: seq<seq<Cell>>)

  /** What an export of one library does: the path it reports and the files
      it writes, in order. */
  datatype Export = Export(csvPath: Path, written: seq<CsvFile>)

  datatype LibraryError = LibraryNotFound(name: string)

  /** The rows handed to the CSV writer. */
  function Rows(records: seq<Record>): (rows: seq<seq<Cell>>)
    ensures |rows| == |records|
    ensures forall k :: 0 <= k < |records| ==> rows[k] == Row(records[k]) && |rows[k]| == |FieldNames|
  {
    seq(|records|, k requires 0 <= k < |records| => Row(records[k]))
  }

  /** The writes of an export with the given records: nothing at all when
      there are none, otherwise the timestamped file and then the "latest"
      file, with the same header and the same rows. */
  function PlanExport(outputDir: string, template: Template, name: string, date: string,
                      records: seq<Record>): (e: Export)
    ensures e.csvPath == Path(outputDir, CsvFileName(template, name, date))
    ensures records == [] <==> e.written == []
    ensures records != [] ==>
      && |e.written| == 2
      && e.written[0].path == e.csvPath
      && e.written[1].path == Path(outputDir, LatestFileName(name))
      && e.written[0].header == e.written[1].header == FieldNames
      && e.written[0].rows == e.written[1].rows
      && |e.written[0].rows| == |records|
      && forall k :: 0 <= k < |records| ==> e.written[0].rows[k] == Row(records[k])
  {
    var csvPath := Path(outputDir, CsvFileName(template, name, date));
    if records == [] then Export(csvPath, [])
    else
      var rows := Rows(records);
      Export(csvPath, [CsvFile(csvPath, FieldNames, rows),
                       CsvFile(Path(outputDir, LatestFileName(name)), FieldNames, rows)])
  }

  /** `monitor_library(name)` on a section whose items are `section` (None
      when the server has no such section), at the time rendered as `date`. */
  method MonitorLibrary(config: Config, name: string, date: string, section: Option<seq<Item>>)
    returns (r: Result<Export, LibraryError>)
    ensures section.None? ==> r == Failure(LibraryNotFound(name))
    ensures section.Some? ==>
      r == Success(PlanExport(OutputDir(config), FilenameTemplate(config), name, date,
                              CollectRecords(section.value)))
  {
    if section.None? {
      return Failure(LibraryNotFound(name));
    }
    var items := section.value;
    var allData: seq<Record> := [];
    var i := 0;
    while i < |items|
      invariant 0 <= i <= |items|
      invariant allData == CollectRecords(items[..i])
    {
      var contribution: seq<Record>;
      match items[i] {
        case MovieItem(m) =>
          contribution := [MovieRecord(m)];
          assert contribution == ItemRecords(items[i]);
        case ShowItem(s) =>
          contribution := GetShowData(s);
          assert contribution == ItemRecords(items[i]);
        case OtherItem =>
          contribution := [];
          assert contribution == ItemRecords(items[i]);
      }
      CollectStep(items, i);
      allData := allData + contribution;
      i := i + 1;
    }
    assert items[..|items|] == items;
    r := Success(PlanExport(OutputDir(config), FilenameTemplate(config), name, date, allData));
  }
}
