/** Collecting the journal through a paged list and chunked texts. */
module JournalPaging {
  import opened Wrappers

  /** One listed item; `date` is None when the item is no object or has no usable date. */
  datatype Summary = Summary(date: Option<string>, revision: Option<int>, title: Option<string>)

  datatype Page = Page(items: seq<Summary>, nextCursor: string)

  datatype Chunk = Chunk(text: string, nextOffset: Option<nat>, revision: Option<int>, title: Option<string>)

  /** The local journal server: its two read-only tools. */
  datatype Server = Server(list: string -> Page, get: (string, nat) -> Chunk)

  datatype Entry = Entry(sourceKey: string, sourceRevision: int, date: string, title: string, body: string)

  // ---------- a server that pages properly ----------

  /** What the server is paging: the listed items page by page with the cursors that lead to them,
      and for each date the full text with the offsets at which it is cut. */
  datatype Book = Book(
    pages: seq<seq<Summary>>, cursors: seq<string>, texts: map<string, string>, cuts: map<string, seq<nat>>)

  ghost predicate Increasing(cuts: seq<nat>) {
    forall i, j :: 0 <= i < j < |cuts| ==> cuts[i] < cuts[j]
  }

  ghost predicate PageOk(server: Server, book: Book, i: nat)
    requires |book.pages| == |book.cursors| && i < |book.pages|
  {
    server.list(book.cursors[i]) == Page(book.pages[i], if i + 1 < |book.pages| then book.cursors[i + 1] else "")
  }

  ghost predicate Listed(server: Server, book: Book) {
    && |book.pages| == |book.cursors| >= 1
    && book.cursors[0] == ""
    && (forall i :: 1 <= i < |book.cursors| ==> book.cursors[i] != "")
    && forall i :: 0 <= i < |book.pages| ==> PageOk(server, book, i)
  }

  /** The piece that starts at cut `i`. */
  ghost predicate ChunkOk(server: Server, date: string, text: string, cuts: seq<nat>, i: nat)
    requires i < |cuts|
  {
    var c := server.get(date, cuts[i]);
    var end := if i + 1 < |cuts| then cuts[i + 1] else |text|;
    && cuts[i] <= end <= |text|
    && c.text == text[cuts[i]..end]
    && c.nextOffset == if i + 1 < |cuts| then Some(cuts[i + 1]) else None
  }

  /** The text of one date comes in pieces that start at strictly increasing offsets. */
  ghost predicate Chunked(server: Server, date: string, text: string, cuts: seq<nat>) {
    && |cuts| >= 1 && cuts[0] == 0 && Increasing(cuts)
    && forall i :: 0 <= i < |cuts| ==> ChunkOk(server, date, text, cuts, i)
  }

  ghost predicate Serves(server: Server, book: Book) {
    && Listed(server, book)
    && forall i, k :: 0 <= i < |book.pages| && 0 <= k < |book.pages[i]| && book.pages[i][k].date.Some? ==>
         var date := book.pages[i][k].date.value;
         date in book.texts && date in book.cuts && Chunked(server, date, book.texts[date], book.cuts[date])
  }

  // ---------- the entries one expects ----------

  function OrElse<T>(a: Option<T>, b: Option<T>, default: T): T {
    if a.Some? then a.value else if b.Some? then b.value else default
  }

  function EntryOf(s: Summary, last: Chunk, body: string): Entry
    requires s.date.Some?
  {
    Entry("local:" + s.date.value, OrElse(last.revision, s.revision, 1), s.date.value,
          OrElse(last.title, s.title, ""), body)
  }

  ghost function LastChunk(server: Server, book: Book, date: string): Chunk
    requires date in book.cuts && |book.cuts[date]| >= 1
  {
    server.get(date, book.cuts[date][|book.cuts[date]| - 1])
  }

  ghost predicate Known(book: Book, items: seq<Summary>) {
    forall k :: 0 <= k < |items| && items[k].date.Some? ==>
      items[k].date.value in book.texts && items[k].date.value in book.cuts && |book.cuts[items[k].date.value]| >= 1
  }

  /** One entry for every dated item, in order, with the full text as its body. */
  ghost function Expected(server: Server, book: Book, items: seq<Summary>): seq<Entry>
    requires Known(book, items)
  {
    if items == [] then []
    else if items[0].date.None? then Expected(server, book, items[1..])
    else [EntryOf(items[0], LastChunk(server, book, items[0].date.value), book.texts[items[0].date.value])]
         + Expected(server, book, items[1..])
  }

  /** The items that have a date. */
  function Dated(items: seq<Summary>): (r: seq<Summary>)
    ensures forall i :: 0 <= i < |r| ==> r[i].date.Some?
  {
    if items == [] then []
    else if items[0].date.None? then Dated(items[1..])
    else [items[0]] + Dated(items[1..])
  }

  /** What is in the entry of a dated item: its date, the whole text of that date, and revision and
      title from the last piece, else from the item, else 1 and nothing. */
  ghost predicate EntryFor(server: Server, book: Book, s: Summary, e: Entry) {
    && s.date == Some(e.date)
    && e.sourceKey == "local:" + e.date
    && e.date in book.texts && e.body == book.texts[e.date]
    && e.date in book.cuts && book.cuts[e.date] != []
    && var cuts := book.cuts[e.date];
       var last := server.get(e.date, cuts[|cuts| - 1]);
    && (last.revision.Some? ==> e.sourceRevision == last.revision.value)
    && (last.revision.None? && s.revision.Some? ==> e.sourceRevision == s.revision.value)
    && (last.revision.None? && s.revision.None? ==> e.sourceRevision == 1)
    && (last.title.Some? ==> e.title == last.title.value)
    && (last.title.None? && s.title.Some? ==> e.title == s.title.value)
    && (last.title.None? && s.title.None? ==> e.title == "")
  }

  /** One entry for each dated item, in their order. */
  ghost predicate EntriesFor(server: Server, book: Book, items: seq<Summary>, entries: seq<Entry>) {
    && |entries| == |Dated(items)|
    && forall j :: 0 <= j < |entries| ==> EntryFor(server, book, Dated(items)[j], entries[j])
  }

  lemma {:induction false} ExpectedFields(server: Server, book: Book, items: seq<Summary>)
    requires Known(book, items)
    ensures EntriesFor(server, book, items, Expected(server, book, items))
  {
    if items != [] { ExpectedFields(server, book, items[1..]); }
  }

  ghost function Flatten(pages: seq<seq<Summary>>): seq<Summary> {
    if pages == [] then [] else pages[0] + Flatten(pages[1..])
  }

  lemma {:induction false} ExpectedAppend(server: Server, book: Book, a: seq<Summary>, b: seq<Summary>)
    requires Known(book, a) && Known(book, b)
    ensures Known(book, a + b)
    ensures Expected(server, book, a + b) == Expected(server, book, a) + Expected(server, book, b)
  {
    if a == [] {
      assert a + b == b;
    } else {
      assert (a + b)[1..] == a[1..] + b;
      ExpectedAppend(server, book, a[1..], b);
    }
  }

  lemma {:induction false} KnownFlatten(server: Server, book: Book, n: nat)
    requires Serves(server, book) && n <= |book.pages|
    ensures Known(book, Flatten(book.pages[n..]))
    decreases |book.pages| - n
  {
    if n < |book.pages| {
      KnownFlatten(server, book, n + 1);
      assert book.pages[n..][1..] == book.pages[n + 1..];
    }
  }

  lemma PageServed(server: Server, book: Book, i: nat)
    requires Serves(server, book) && i < |book.pages|
    ensures Known(book, book.pages[i])
    ensures forall k :: 0 <= k < |book.pages[i]| && book.pages[i][k].date.Some? ==>
      var date := book.pages[i][k].date.value; Chunked(server, date, book.texts[date], book.cuts[date])
  {
  }

  // ---------- the loops ----------

  /** The offset loop for one date. */
  method ReadBody(server: Server, date: string, ghost text: string, ghost cuts: seq<nat>)
    returns (body: string, last: Chunk)
    requires Chunked(server, date, text, cuts)
    ensures body == text && last == server.get(date, cuts[|cuts| - 1])
  {
    body := "";
    var offset := 0;
    ghost var i := 0;
    while true
      invariant 0 <= i < |cuts| && offset == cuts[i] <= |text| && body == text[..offset]
      decreases |cuts| - i
    {
      assert ChunkOk(server, date, text, cuts, i);
      last := server.get(date, offset);
      body := body + last.text;
      if last.nextOffset.None? { return; }
      offset := last.nextOffset.value;
      i := i + 1;
      assert ChunkOk(server, date, text, cuts, i);
    }
  }

  /** The items of one page. */
  method ReadPage(server: Server, items: seq<Summary>, ghost book: Book) returns (entries: seq<Entry>)
    requires Known(book, items)
    requires forall k :: 0 <= k < |items| && items[k].date.Some? ==>
      var date := items[k].date.value; Chunked(server, date, book.texts[date], book.cuts[date])
    ensures entries == Expected(server, book, items) && EntriesFor(server, book, items, entries)
  {
    ExpectedFields(server, book, items);
    entries := [];
    for k := 0 to |items|
      invariant entries + Expected(server, book, items[k..]) == Expected(server, book, items)
    {
      assert items[k..][1..] == items[k + 1..];
      if items[k].date.Some? {
        var date := items[k].date.value;
        var body, last := ReadBody(server, date, book.texts[date], book.cuts[date]);
        entries := entries + [EntryOf(items[k], last, body)];
      }
    }
    assert items[|items|..] == [];
  }

  /** The cursor loop of `sync_journal`.  Paging loses nothing: the loops end, and what they
      collect is exactly one entry for each dated item, in listing order, with its full text. */
  method CollectEntries(server: Server, ghost book: Book) returns (entries: seq<Entry>)
    requires Serves(server, book)
    ensures Known(book, Flatten(book.pages))
    ensures entries == Expected(server, book, Flatten(book.pages))
    ensures EntriesFor(server, book, Flatten(book.pages), entries)
  {
    hide EntriesFor, Chunked, Known;
    KnownFlatten(server, book, 0);
    assert book.pages[0..] == book.pages;
    ExpectedFields(server, book, Flatten(book.pages));
    entries := [];
    var cursor := "";
    ghost var i := 0;
    while true
      invariant 0 <= i < |book.pages| && cursor == book.cursors[i]
      invariant Known(book, Flatten(book.pages[i..]))
      invariant entries + Expected(server, book, Flatten(book.pages[i..]))
             == Expected(server, book, Flatten(book.pages))
      decreases |book.pages| - i
    {
      var page := server.list(cursor);
      assert PageOk(server, book, i);
      PageServed(server, book, i);
      var more := ReadPage(server, page.items, book);
      KnownFlatten(server, book, i + 1);
      assert book.pages[i..][1..] == book.pages[i + 1..];
      ExpectedAppend(server, book, book.pages[i], Flatten(book.pages[i + 1..]));
      entries := entries + more;
      cursor := page.nextCursor;
      if cursor == "" {
        assert book.pages[i + 1..] == [];
        return;
      }
      i := i + 1;
    }
  }

  lemma {:induction false} ExpectedAgrees(a: Server, b: Server, x: Book, y: Book, items: seq<Summary>)
    requires Known(x, items) && Known(y, items)
    requires forall k :: 0 <= k < |items| && items[k].date.Some? ==> EndsAlike(a, b, x, y, items[k].date.value)
    ensures Expected(a, x, items) == Expected(b, y, items)
  {
    if items != [] { ExpectedAgrees(a, b, x, y, items[1..]); }
  }

  /** Both servers have the same text for this date, and the last piece of each reports the same
      revision and title. */
  ghost predicate EndsAlike(a: Server, b: Server, x: Book, y: Book, date: string)
    requires date in x.texts && date in x.cuts && |x.cuts[date]| >= 1
    requires date in y.texts && date in y.cuts && |y.cuts[date]| >= 1
  {
    && x.texts[date] == y.texts[date]
    && LastChunk(a, x, date).revision == LastChunk(b, y, date).revision
    && LastChunk(a, x, date).title == LastChunk(b, y, date).title
  }

  /** What is pushed does not depend on where pages and texts are cut: run against two servers with
      the same items and texts, however they page and cut them, the loops return the same entries. */
  method CollectFromBoth(a: Server, b: Server, ghost x: Book, ghost y: Book)
    returns (first: seq<Entry>, second: seq<Entry>)
    requires Serves(a, x) && Serves(b, y) && Flatten(x.pages) == Flatten(y.pages)
    requires Known(x, Flatten(x.pages)) && Known(y, Flatten(y.pages)) &&
      forall k :: 0 <= k < |Flatten(x.pages)| && Flatten(x.pages)[k].date.Some? ==>
        EndsAlike(a, b, x, y, Flatten(x.pages)[k].date.value)
    ensures first == second == Expected(a, x, Flatten(x.pages))
  {
    first := CollectEntries(a, x);
    second := CollectEntries(b, y);
    ExpectedAgrees(a, b, x, y, Flatten(x.pages));
  }
}
