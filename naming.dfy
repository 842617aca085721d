/** Output file names. The `csv_filename` setting is a format string with
    `{library}` and `{date}` fields; here it arrives already split into
    literal text and the two fields. */
module Naming {
  import opened Strings

  datatype Piece = Lit(text: string) | LibraryField | DateField

  type Template = seq<Piece>

  /** `plex_library_{library}_{date}.csv` */
  const DefaultTemplate: Template := [Lit("plex_library_"), LibraryField, Lit("_"), DateField, Lit(".csv")]

  const LatestPrefix := "plex_library_"
  const LatestSuffix := "_latest.csv"

  function PieceText(p: Piece, library: string, date: string): string {
    match p
    case Lit(text) => text
    case LibraryField => library
    case DateField => date
  }

  /** `template.format(library=..., date=...)`. */
  function Render(t: Template, library: string, date: string): string
  {
    if t == [] then "" else PieceText(t[0], library, date) + Render(t[1..], library, date)
  }

  /** A template without a `{date}` field renders the same text whatever
      the date: every run then writes to the same timestamped file. */
  lemma {:induction false} RenderIgnoresDate(t: Template, library: string, d1: string, d2: string)
    requires DateField !in t
    ensures Render(t, library, d1) == Render(t, library, d2)
    decreases |t|
  {
    if t != [] {
      assert t[0] != DateField;
      assert DateField !in t[1..];
      RenderIgnoresDate(t[1..], library, d1, d2);
    }
  }

  /** Rendering a concatenation of templates concatenates the renderings. */
  lemma {:induction false} RenderAppend(t: Template, u: Template, library: string, date: string)
    ensures Render(t + u, library, date) == Render(t, library, date) + Render(u, library, date)
    decreases |t|
  {
    if t == [] {
      assert t + u == u;
    } else {
      RenderAppend(t[1..], u, library, date);
      assert (t + u)[1..] == t[1..] + u;
    }
  }

  /** `name.replace(' ', '_')`: the library name as it appears in file names. */
  function LibrarySlug(name: string): (r: string)
    ensures |r| == |name| && ' ' !in r
    ensures forall i :: 0 <= i < |name| && name[i] != ' ' ==> r[i] == name[i]
  {
    ReplaceCharRemoves(name, ' ', '_');
    ReplaceChar(name, ' ', '_')
  }

  /** Names that differ only by spaces against underscores get the same slug,
      so their libraries share output files. */
  lemma SlugIgnoresSpaceVersusUnderscore(a: string, b: string)
    requires |a| == |b|
    requires forall i :: 0 <= i < |a| ==> a[i] == b[i] || (a[i] in " _" && b[i] in " _")
    ensures LibrarySlug(a) == LibrarySlug(b)
  {
    var sa, sb := LibrarySlug(a), LibrarySlug(b);
    forall i | 0 <= i < |a|
      ensures sa[i] == sb[i]
    {
      assert sa[i] == ReplaceChar(a, ' ', '_')[i];
      assert sb[i] == ReplaceChar(b, ' ', '_')[i];
    }
  }

  /** A character that occurs in no literal of the template, nor in the
      library or the date, does not occur in the rendered text. */
  lemma {:induction false} RenderAvoids(t: Template, library: string, date: string, c: char)
    requires forall i :: 0 <= i < |t| && t[i].Lit? ==> c !in t[i].text
    requires c !in library && c !in date
    ensures c !in Render(t, library, date)
    decreases |t|
  {
    if t != [] {
      RenderAvoids(t[1..], library, date, c);
      assert c !in PieceText(t[0], library, date);
    }
  }

  /** The timestamped file name of a library export. Spaces in the library
      name never reach it: with space-free literals and date it has none. */
  function CsvFileName(t: Template, name: string, date: string): (r: string)
    ensures (forall i :: 0 <= i < |t| && t[i].Lit? ==> ' ' !in t[i].text) && ' ' !in date ==> ' ' !in r
  {
    assert (forall i :: 0 <= i < |t| && t[i].Lit? ==> ' ' !in t[i].text) && ' ' !in date ==>
      ' ' !in Render(t, LibrarySlug(name), date) by {
      if (forall i :: 0 <= i < |t| && t[i].Lit? ==> ' ' !in t[i].text) && ' ' !in date {
        RenderAvoids(t, LibrarySlug(name), date, ' ');
      }
    }
    Render(t, LibrarySlug(name), date)
  }

  /** The fixed name of the "latest" copy of a library export. */
  function LatestFileName(name: string): (r: string)
    ensures ' ' !in r
    ensures r == CsvFileName(DefaultTemplate, name, "latest")
  {
    DefaultFileName(name, "latest");
    LatestPrefix + LibrarySlug(name) + LatestSuffix
  }

  lemma RenderCons(p: Piece, t: Template, library: string, date: string)
    ensures Render([p] + t, library, date) == PieceText(p, library, date) + Render(t, library, date)
  {
    assert ([p] + t)[1..] == t;
  }

  /** With the default template the timestamped name is
      `plex_library_<slug>_<date>.csv`. */
  lemma DefaultFileName(name: string, date: string)
    ensures CsvFileName(DefaultTemplate, name, date) == "plex_library_" + LibrarySlug(name) + "_" + date + ".csv"
  {
    var slug := LibrarySlug(name);
    var t4 := [Lit(".csv")];
    var t3 := [DateField] + t4;
    var t2 := [Lit("_")] + t3;
    var t1 := [LibraryField] + t2;
    assert DefaultTemplate == [Lit("plex_library_")] + t1;
    RenderCons(Lit(".csv"), [], slug, date);
    assert t4 == [Lit(".csv")] + [];
    RenderCons(DateField, t4, slug, date);
    RenderCons(Lit("_"), t3, slug, date);
    RenderCons(LibraryField, t2, slug, date);
    RenderCons(Lit("plex_library_"), t1, slug, date);
  }

  /** Exports of one library at different times go to different timestamped
      files, and none of them is the "latest" file unless the date text is
      literally `latest`. */
  lemma DefaultNamesDistinct(name: string, d1: string, d2: string)
    ensures d1 != d2 ==> CsvFileName(DefaultTemplate, name, d1) != CsvFileName(DefaultTemplate, name, d2)
    ensures CsvFileName(DefaultTemplate, name, d1) == LatestFileName(name) <==> d1 == "latest"
  {
    DefaultFileName(name, d1);
    DefaultFileName(name, d2);
    var head := "plex_library_" + LibrarySlug(name) + "_";
    var n1, n2, latest := head + d1 + ".csv", head + d2 + ".csv", LatestFileName(name);
    assert latest == head + "latest" + ".csv";
    assert n1[|head|..|n1| - 4] == d1;
    assert n2[|head|..|n2| - 4] == d2;
    assert latest[|head|..|latest| - 4] == "latest";
  }
}
