/**
 * The command-line extractor: one entry per `local_results` element, and
 * the optional CSV block written when the third argument asks for it.
 */
module Extractor {
  import opened Wrappers
  import opened Places
  import opened Dispatch

  /** One listed shop: title, phone and address, each already resolved. */
  datatype Entry = Entry(title: string, phone: string, address: string)

  function EntryOf(p: Place): Entry {
    Entry(DisplayTitle(p), DisplayPhone(p), DisplayAddress(p))
  }

  /** No `local_results` gives no entries; otherwise one entry per record, in order. */
  function Extract(results: Response): (es: seq<Entry>)
    ensures results.NoLocalResults? ==> es == []
    ensures results.LocalResults? ==> |es| == |results.places|
    ensures results.LocalResults? ==> forall k :: 0 <= k < |es| ==> es[k] == EntryOf(results.places[k])
  {
    match results
    case NoLocalResults => []
    case LocalResults(ps) => seq(|ps|, k requires 0 <= k < |ps| => EntryOf(ps[k]))
  }

  /** The loop over `local_results`: resolve each record and append its entry. */
  method ExtractEntries(results: Response) returns (es: seq<Entry>)
    ensures es == Extract(results)
  {
    es := [];
    if results.LocalResults? {
      var ps := results.places;
      var k := 0;
      while k < |ps|
        invariant 0 <= k <= |ps|
        invariant |es| == k
        invariant forall i :: 0 <= i < k ==> es[i] == EntryOf(ps[i])
      {
        es := es + [Entry(DisplayTitle(ps[k]), DisplayPhone(ps[k]), DisplayAddress(ps[k]))];
        k := k + 1;
      }
    }
  }

  const CsvHeader: string := "店舗名,電話番号,住所"

  /** `len(sys.argv) > 3 and sys.argv[3] in ('--csv', '-c')`; `argv[0]` is the program. */
  predicate CsvRequested(argv: seq<string>) {
    |argv| > 3 && (argv[3] == "--csv" || argv[3] == "-c")
  }

  function Quote(s: string): string {
    "\"" + s + "\""
  }

  /** Each field wrapped in double quotes; quotes inside a field are not escaped. */
  function CsvRow(e: Entry): string {
    Quote(e.title) + "," + Quote(e.phone) + "," + Quote(e.address)
  }

  /** The CSV block: nothing unless requested, else the header and one row per entry. */
  function CsvLines(argv: seq<string>, es: seq<Entry>): (lines: seq<string>)
    ensures !CsvRequested(argv) ==> lines == []
    ensures CsvRequested(argv) ==> |lines| == |es| + 1 && lines[0] == CsvHeader
    ensures CsvRequested(argv) ==> forall k :: 0 <= k < |es| ==> lines[k + 1] == CsvRow(es[k])
  {
    if CsvRequested(argv) then [CsvHeader] + seq(|es|, k requires 0 <= k < |es| => CsvRow(es[k])) else []
  }

  // ---------------------------------------------------------------------------
  // Reading a row back
  // ---------------------------------------------------------------------------

  /** Splits `s` at its first double quote: the text before it and the text after it. */
  function UntilQuote(s: string): Option<(string, string)> {
    if s == [] then None
    else if s[0] == '"' then Some(([], s[1..]))
    else
      match UntilQuote(s[1..])
      case None => None
      case Some(split) => Some(([s[0]] + split.0, split.1))
  }

  /** A field in double quotes at the head of `s`, and what follows it. */
  function QuotedField(s: string): Option<(string, string)> {
    if s != [] && s[0] == '"' then UntilQuote(s[1..]) else None
  }

  /** Reads `"a","b","c"` back into an entry. */
  function ParseCsvRow(line: string): Option<Entry> {
    match QuotedField(line)
    case None => None
    case Some(f1) =>
      if f1.1 == [] || f1.1[0] != ',' then None
      else match QuotedField(f1.1[1..])
      case None => None
      case Some(f2) =>
        if f2.1 == [] || f2.1[0] != ',' then None
        else match QuotedField(f2.1[1..])
        case None => None
        case Some(f3) => if f3.1 == [] then Some(Entry(f1.0, f2.0, f3.0)) else None
  }

  lemma {:induction false} UntilQuoteFindsEnd(t: string, rest: string)
    requires '"' !in t
    ensures UntilQuote(t + "\"" + rest) == Some((t, rest))
  {
    if t != [] {
      assert (t + "\"" + rest)[1..] == t[1..] + "\"" + rest;
      UntilQuoteFindsEnd(t[1..], rest);
      assert [t[0]] + t[1..] == t;
    } else {
      assert t + "\"" + rest == "\"" + rest;
    }
  }

  lemma QuotedFieldReads(t: string, rest: string)
    requires '"' !in t
    ensures QuotedField(Quote(t) + rest) == Some((t, rest))
  {
    assert (Quote(t) + rest)[1..] == t + "\"" + rest;
    UntilQuoteFindsEnd(t, rest);
  }

  /** A row whose fields hold no double quote reads back as the entry it was written from. */
  lemma CsvRowRoundTrip(e: Entry)
    requires '"' !in e.title && '"' !in e.phone && '"' !in e.address
    ensures ParseCsvRow(CsvRow(e)) == Some(e)
  {
    var tail2 := Quote(e.address);
    var tail1 := Quote(e.phone) + "," + tail2;
    assert CsvRow(e) == Quote(e.title) + ("," + tail1);
    QuotedFieldReads(e.title, "," + tail1);
    assert ("," + tail1)[1..] == tail1;
    assert tail1 == Quote(e.phone) + ("," + tail2);
    QuotedFieldReads(e.phone, "," + tail2);
    assert ("," + tail2)[1..] == tail2;
    assert tail2 == Quote(e.address) + "";
    QuotedFieldReads(e.address, "");
  }

  /** Every data line of the CSV block reads back as its entry when no field holds a double quote. */
  lemma CsvLinesRoundTrip(argv: seq<string>, es: seq<Entry>)
    requires CsvRequested(argv)
    requires forall k :: 0 <= k < |es| ==> '"' !in es[k].title && '"' !in es[k].phone && '"' !in es[k].address
    ensures var lines := CsvLines(argv, es);
            |lines| == |es| + 1 && forall k :: 0 <= k < |es| ==> ParseCsvRow(lines[k + 1]) == Some(es[k])
  {
    forall k | 0 <= k < |es|
      ensures ParseCsvRow(CsvLines(argv, es)[k + 1]) == Some(es[k])
    {
      CsvRowRoundTrip(es[k]);
    }
  }

  /** Without escaping, two different entries can print the same row. */
  lemma CsvRowNotInjective()
    ensures CsvRow(Entry("a\",\"b", "c", "d")) == CsvRow(Entry("a", "b\",\"c", "d"))
    ensures Entry("a\",\"b", "c", "d") != Entry("a", "b\",\"c", "d")
  {
    assert CsvRow(Entry("a\",\"b", "c", "d")) == "\"a\",\"b\",\"c\",\"d\"";
    assert CsvRow(Entry("a", "b\",\"c", "d")) == "\"a\",\"b\",\"c\",\"d\"";
  }

  /**
   * The CSV block of an extraction: when requested, and when no resolved
   * field holds a double quote, data line k + 1 reads back as the title,
   * phone and address resolved from record k.
   */
  lemma ExtractCsvRoundTrip(argv: seq<string>, ps: seq<Place>)
    requires CsvRequested(argv)
    requires forall k :: 0 <= k < |ps| ==>
      '"' !in DisplayTitle(ps[k]) && '"' !in DisplayPhone(ps[k]) && '"' !in DisplayAddress(ps[k])
    ensures var lines := CsvLines(argv, Extract(LocalResults(ps)));
            && |lines| == |ps| + 1
            && lines[0] == CsvHeader
            && forall k :: 0 <= k < |ps| ==>
                 ParseCsvRow(lines[k + 1]) == Some(Entry(DisplayTitle(ps[k]), DisplayPhone(ps[k]), DisplayAddress(ps[k])))
  {
    CsvLinesRoundTrip(argv, Extract(LocalResults(ps)));
  }
}
