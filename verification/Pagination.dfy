/** Paginated discovery: pages are fetched by cursor until none follows, at most 32 of them. */
module Pagination {
  import opened Common

  const MAX_PAGES := 32

  datatype McpError = TooManyPages | PageError(message: string) | EntryError(message: string)

  /** `entries` is absent when the reply has no array under the expected key; both cursor
      fields are absent when they are not strings. */
  datatype Page<+V> = Page(entries: Option<seq<V>>, nextCursor: Option<string>, cursor: Option<string>)

  type Cursor = Option<string>

  /** The server as a function of the number of the request and its cursor. */
  datatype Source<!V, T> = Source(
    fetch: (nat, Cursor) -> Result<Page<V>, string>,
    parse: V -> Result<T, string>,
    blank: string -> bool)

  function Entries<V>(page: Page<V>): seq<V> {
    if page.entries.Some? then page.entries.value else []
  }

  /** The cursor a page announces; a blank one counts as none. */
  function Next<V, T>(src: Source<V, T>, page: Page<V>): Cursor {
    var raw := if page.nextCursor.Some? then page.nextCursor else page.cursor;
    if raw.Some? && !src.blank(raw.value) then raw else None
  }

  function ParseAll<V, T>(src: Source<V, T>, entries: seq<V>, done: seq<T>): Result<seq<T>, McpError>
    decreases |entries|
  {
    if entries == [] then Success(done)
    else
      match src.parse(entries[0])
      case Failure(e) => Failure(EntryError(e))
      case Success(item) => ParseAll(src, entries[1..], done + [item])
  }

  /** The loop, with `pages` pages behind it. */
  function Collect<V, T>(src: Source<V, T>, pages: nat, cursor: Cursor, out: seq<T>): Result<seq<T>, McpError>
    decreases MAX_PAGES + 1 - pages
  {
    if pages + 1 > MAX_PAGES then Failure(TooManyPages)
    else
      match src.fetch(pages, cursor)
      case Failure(e) => Failure(PageError(e))
      case Success(page) =>
        match ParseAll(src, Entries(page), out)
        case Failure(e) => Failure(e)
        case Success(more) =>
          var next := Next(src, page);
          if next.None? || next == cursor then Success(more) else Collect(src, pages + 1, next, more)
  }

  method CollectPaginated<V, T>(src: Source<V, T>) returns (r: Result<seq<T>, McpError>)
    ensures r == Collect(src, 0, None, [])
  {
    var out: seq<T>, cursor: Cursor, pages := [], None, 0;
    while true
      invariant pages <= MAX_PAGES
      invariant Collect(src, pages, cursor, out) == Collect(src, 0, None, [])
      decreases MAX_PAGES - pages
    {
      pages := pages + 1;
      if pages > MAX_PAGES {
        return Failure(TooManyPages);
      }
      var reply := src.fetch(pages - 1, cursor);
      if reply.Failure? {
        return Failure(PageError(reply.error));
      }
      var entries := Entries(reply.value);
      ghost var before := out;
      for k := 0 to |entries|
        invariant ParseAll(src, entries, before) == ParseAll(src, entries[k..], out)
      {
        assert entries[k..][0] == entries[k] && entries[k..][1..] == entries[k + 1..];
        var item := src.parse(entries[k]);
        if item.Failure? {
          return Failure(EntryError(item.error));
        }
        out := out + [item.value];
      }
      assert entries[|entries|..] == [];
      var next := Next(src, reply.value);
      if next.None? || next == cursor {
        break;
      }
      cursor := next;
    }
    r := Success(out);
  }

  // ----- what was fetched -----

  /** The cursors requested from position `pages` on. */
  function Fetched<V, T>(src: Source<V, T>, pages: nat, cursor: Cursor): seq<Cursor>
    decreases MAX_PAGES + 1 - pages
  {
    if pages + 1 > MAX_PAGES then []
    else
      [cursor] + match src.fetch(pages, cursor)
                 case Failure(_) => []
                 case Success(page) =>
                   if ParseAll(src, Entries(page), []).Failure? then []
                   else
                     var next := Next(src, page);
                     if next.None? || next == cursor then [] else Fetched(src, pages + 1, next)
  }

  /** The parsed entries of the page that a request got. */
  function PageItems<V, T>(src: Source<V, T>, pages: nat, cursor: Cursor): seq<T> {
    match src.fetch(pages, cursor)
    case Failure(_) => []
    case Success(page) =>
      match ParseAll(src, Entries(page), [])
      case Failure(_) => []
      case Success(items) => items
  }

  function Concatenated<V, T>(src: Source<V, T>, pages: nat, cursors: seq<Cursor>): seq<T>
    decreases |cursors|
  {
    if cursors == [] then []
    else PageItems(src, pages, cursors[0]) + Concatenated(src, pages + 1, cursors[1..])
  }

  lemma {:induction false} ParseAppends<V, T>(src: Source<V, T>, entries: seq<V>, done: seq<T>)
    ensures match ParseAll(src, entries, [])
      case Failure(e) => ParseAll(src, entries, done) == Failure(e) && e.EntryError?
      case Success(items) => ParseAll(src, entries, done) == Success(done + items)
    decreases |entries|
  {
    if entries == [] {
      assert done + [] == done;
    } else if src.parse(entries[0]).Success? {
      var item := src.parse(entries[0]).value;
      ParseAppends(src, entries[1..], done + [item]);
      ParseAppends(src, entries[1..], [item]);
      assert [] + [item] == [item];
      if ParseAll(src, entries[1..], []).Success? {
        var items := ParseAll(src, entries[1..], []).value;
        assert done + [item] + items == done + ([item] + items);
      }
    }
  }

  /** The page is good and announces another one. */
  predicate Continues<V, T>(src: Source<V, T>, pages: nat, cursor: Cursor) {
    match src.fetch(pages, cursor)
    case Failure(_) => false
    case Success(page) =>
      ParseAll(src, Entries(page), []).Success? && Next(src, page).Some? && Next(src, page) != cursor
  }

  function NextOf<V, T>(src: Source<V, T>, pages: nat, cursor: Cursor): Cursor
    requires Continues(src, pages, cursor)
  {
    Next(src, src.fetch(pages, cursor).value)
  }

  /** The first entry that cannot be parsed. */
  ghost predicate FirstBad<V, T>(src: Source<V, T>, entries: seq<V>, k: nat, message: string) {
    && k < |entries| && src.parse(entries[k]) == Failure(message)
    && forall i :: 0 <= i < k ==> src.parse(entries[i]).Success?
  }

  ghost predicate AllParse<V, T>(src: Source<V, T>, entries: seq<V>) {
    forall i :: 0 <= i < |entries| ==> src.parse(entries[i]).Success?
  }

  /** The items are the entries parsed, one by one. */
  ghost predicate ParsedFrom<V, T>(src: Source<V, T>, entries: seq<V>, items: seq<T>) {
    |items| == |entries| && forall i :: 0 <= i < |entries| ==> src.parse(entries[i]) == Success(items[i])
  }

  /** Parsing a list gives every entry parsed, in order, or the error of the first bad one. */
  lemma {:induction false} ParseMeans<V, T>(src: Source<V, T>, entries: seq<V>)
    ensures match ParseAll(src, entries, [])
      case Success(items) => ParsedFrom(src, entries, items)
      case Failure(e) => e.EntryError? && exists k: nat :: FirstBad(src, entries, k, e.message)
    decreases |entries|
  {
    if entries != [] && src.parse(entries[0]).Success? {
      var rest, item := entries[1..], src.parse(entries[0]).value;
      ParseMeans(src, rest);
      ParseAppends(src, rest, [item]);
      assert [] + [item] == [item];
      var r := ParseAll(src, rest, []);
      if r.Failure? {
        var k: nat :| FirstBad(src, rest, k, r.error.message);
        assert FirstBad(src, entries, k + 1, r.error.message);
      }
    } else if entries != [] {
      assert FirstBad(src, entries, 0, src.parse(entries[0]).error);
    }
  }

  /** The request failed with this error, or its page has a bad entry with it. */
  ghost predicate Blames<V, T>(src: Source<V, T>, pages: nat, cursor: Cursor, e: McpError) {
    match src.fetch(pages, cursor)
    case Failure(message) => e == PageError(message)
    case Success(page) =>
      e.EntryError? && page.entries.Some? && exists k: nat :: FirstBad(src, page.entries.value, k, e.message)
  }

  /** One turn of the loop: it goes on with the next cursor, or it ends here. */
  lemma Turn<V, T>(src: Source<V, T>, pages: nat, cursor: Cursor, out: seq<T>)
    requires pages < MAX_PAGES
    ensures if Continues(src, pages, cursor)
      then && Collect(src, pages, cursor, out)
              == Collect(src, pages + 1, NextOf(src, pages, cursor), out + PageItems(src, pages, cursor))
           && Fetched(src, pages, cursor) == [cursor] + Fetched(src, pages + 1, NextOf(src, pages, cursor))
      else && Fetched(src, pages, cursor) == [cursor]
           && match Collect(src, pages, cursor, out)
              case Success(items) => items == out + PageItems(src, pages, cursor)
              case Failure(e) => !e.TooManyPages? && Blames(src, pages, cursor, e)
    ensures Collect(src, pages, cursor, out).Success? && !Continues(src, pages, cursor)
       <==> Ends(src, pages, cursor)
  {
    if src.fetch(pages, cursor).Success? {
      ParseAppends(src, Entries(src.fetch(pages, cursor).value), out);
      ParseMeans(src, Entries(src.fetch(pages, cursor).value));
    }
    hide ParseAll;
  }

  /** The page is good and announces no other one. */
  predicate Ends<V, T>(src: Source<V, T>, pages: nat, cursor: Cursor) {
    match src.fetch(pages, cursor)
    case Failure(_) => false
    case Success(page) =>
      ParseAll(src, Entries(page), []).Success? && (Next(src, page).None? || Next(src, page) == cursor)
  }

  lemma ConcatenatedCons<V, T>(src: Source<V, T>, pages: nat, cursor: Cursor, rest: seq<Cursor>, out: seq<T>)
    ensures out + PageItems(src, pages, cursor) + Concatenated(src, pages + 1, rest)
         == out + Concatenated(src, pages, [cursor] + rest)
  {
    assert ([cursor] + rest)[1..] == rest;
    var items := PageItems(src, pages, cursor);
    assert out + items + Concatenated(src, pages + 1, rest) == out + (items + Concatenated(src, pages + 1, rest));
  }

  lemma OutOfPages<V, T>(src: Source<V, T>, cursor: Cursor, out: seq<T>)
    ensures Collect(src, MAX_PAGES, cursor, out) == Failure(TooManyPages) && Fetched(src, MAX_PAGES, cursor) == []
  {
  }

  /** What the collection amounts to when `cs` are the cursors that were fetched. */
  ghost predicate Accounted<V, T>(src: Source<V, T>, pages: nat, cs: seq<Cursor>, out: seq<T>,
                                  r: Result<seq<T>, McpError>)
  {
    && 1 <= |cs| <= 32 - pages
    && match r
       case Success(items) =>
         items == out + Concatenated(src, pages, cs) && Ends(src, pages + |cs| - 1, cs[|cs| - 1])
       case Failure(e) =>
         && (e.TooManyPages? <==> |cs| == 32 - pages && Continues(src, MAX_PAGES - 1, cs[|cs| - 1]))
         && (!e.TooManyPages? ==> Blames(src, pages + |cs| - 1, cs[|cs| - 1], e))
  }

  lemma AccountedLast<V, T>(src: Source<V, T>, pages: nat, cursor: Cursor, out: seq<T>, r: Result<seq<T>, McpError>)
    requires pages < MAX_PAGES
    requires !Continues(src, pages, cursor) || pages + 1 == MAX_PAGES
    requires r.Success? ==> r.value == out + PageItems(src, pages, cursor) && Ends(src, pages, cursor)
    requires r == Failure(TooManyPages) <==> Continues(src, pages, cursor)
    requires r.Failure? && !r.error.TooManyPages? ==> Blames(src, pages, cursor, r.error)
    ensures Accounted(src, pages, [cursor], out, r)
  {
    hide Continues, PageItems, Blames;
    assert [cursor][1..] == [];
    assert Concatenated(src, pages, [cursor]) == PageItems(src, pages, cursor) + [] == PageItems(src, pages, cursor);
  }

  lemma AccountedStep<V, T>(src: Source<V, T>, pages: nat, cursor: Cursor, rest: seq<Cursor>, out: seq<T>,
                            r: Result<seq<T>, McpError>)
    requires Accounted(src, pages + 1, rest, out + PageItems(src, pages, cursor), r)
    ensures Accounted(src, pages, [cursor] + rest, out, r)
  {
    ConcatenatedCons(src, pages, cursor, rest, out);
    hide Continues, PageItems, Concatenated, Blames;
    var cs := [cursor] + rest;
    assert |cs| == |rest| + 1 && cs[|cs| - 1] == rest[|rest| - 1];
  }

  /** For any server: a collection that succeeds consists of the fetched pages in order, at most
      32 of them, and the last one announces no other; it is given up exactly when the 32nd page
      still announces one, and any other error is that of the last request or of an entry it got. */
  lemma {:induction false} CollectsFetched<V, T>(src: Source<V, T>, pages: nat, cursor: Cursor, out: seq<T>)
    requires pages < MAX_PAGES
    ensures Accounted(src, pages, Fetched(src, pages, cursor), out, Collect(src, pages, cursor, out))
    decreases MAX_PAGES - pages
  {
    Turn(src, pages, cursor, out);
    hide Collect, Fetched, Continues, PageItems, NextOf, Accounted, Ends, Blames;
    var r := Collect(src, pages, cursor, out);
    if Continues(src, pages, cursor) {
      var next, more := NextOf(src, pages, cursor), out + PageItems(src, pages, cursor);
      if pages + 1 < MAX_PAGES {
        CollectsFetched(src, pages + 1, next, more);
        AccountedStep(src, pages, cursor, Fetched(src, pages + 1, next), out, r);
      } else {
        OutOfPages(src, next, more);
        assert [cursor] + [] == [cursor];
        AccountedLast(src, pages, cursor, out, r);
      }
    } else {
      AccountedLast(src, pages, cursor, out, r);
    }
  }

  /** The second cursor is the one that the good page under the first announces. */
  ghost predicate Leads<V, T>(src: Source<V, T>, pages: nat, cursor: Cursor, next: Cursor) {
    Continues(src, pages, cursor) && next == NextOf(src, pages, cursor)
  }

  /** From `cursor` on, each cursor is the one that the page before it announced. */
  ghost predicate Chained<V, T>(src: Source<V, T>, pages: nat, cursor: Cursor, cs: seq<Cursor>) {
    && cs != [] && cs[0] == cursor
    && forall i: nat :: i + 1 < |cs| ==> Leads(src, pages + i, cs[i], cs[i + 1])
  }

  lemma ChainedNext<V, T>(src: Source<V, T>, pages: nat, cursor: Cursor, next: Cursor, rest: seq<Cursor>)
    requires Leads(src, pages, cursor, next) && Chained(src, pages + 1, next, rest)
    ensures Chained(src, pages, cursor, [cursor] + rest)
  {
    hide Leads;
    var cs := [cursor] + rest;
    forall i: nat | i + 1 < |cs| ensures Leads(src, pages + i, cs[i], cs[i + 1]) {
      if i > 0 {
        assert Leads(src, pages + 1 + (i - 1), rest[i - 1], rest[i]);
      }
    }
  }

  lemma ChainedLast<V, T>(src: Source<V, T>, pages: nat, cursor: Cursor)
    ensures Chained(src, pages, cursor, [cursor])
  {
  }

  lemma ContinuesLeads<V, T>(src: Source<V, T>, pages: nat, cursor: Cursor)
    requires Continues(src, pages, cursor)
    ensures Leads(src, pages, cursor, NextOf(src, pages, cursor))
  {
  }

  /** The pages fetched are those that the server announced, one after the other. */
  lemma {:induction false} FetchedFollowsCursors<V, T>(src: Source<V, T>, pages: nat, cursor: Cursor)
    requires pages < MAX_PAGES
    ensures Chained(src, pages, cursor, Fetched(src, pages, cursor))
    decreases MAX_PAGES - pages
  {
    hide Collect, Fetched, Continues, PageItems, NextOf, Ends, Leads, Chained;
    Turn(src, pages, cursor, []);
    ChainedLast(src, pages, cursor);
    if Continues(src, pages, cursor) {
      var next := NextOf(src, pages, cursor);
      if pages + 1 < MAX_PAGES {
        ContinuesLeads(src, pages, cursor);
        FetchedFollowsCursors(src, pages + 1, next);
        ChainedNext(src, pages, cursor, next, Fetched(src, pages + 1, next));
      } else {
        OutOfPages(src, next, []);
        assert [cursor] + [] == [cursor];
      }
    }
  }

  /** The page announces this cursor: under `nextCursor`, or else under `cursor`, unless it is blank. */
  ghost predicate Announces<V, T>(src: Source<V, T>, page: Page<V>, next: string) {
    && !src.blank(next)
    && (page.nextCursor == Some(next) || (page.nextCursor.None? && page.cursor == Some(next)))
  }

  /** A page leads on iff all its entries can be parsed and it announces a cursor other than its own;
      then that cursor is the next one, and what the page adds is its entries parsed, all of them in order. */
  lemma PageMeans<V, T>(src: Source<V, T>, pages: nat, cursor: Cursor, page: Page<V>)
    requires src.fetch(pages, cursor) == Success(page)
    ensures var good := page.entries.Some? ==> AllParse(src, page.entries.value);
      && (Continues(src, pages, cursor)
          <==> good && exists next: string :: Announces(src, page, next) && cursor != Some(next))
      && (Ends(src, pages, cursor)
          <==> good && forall next: string :: Announces(src, page, next) ==> cursor == Some(next))
      && (Continues(src, pages, cursor) ==> Announces(src, page, NextOf(src, pages, cursor).value))
      && (good ==> ParsedFrom(src, if page.entries.Some? then page.entries.value else [],
                              PageItems(src, pages, cursor)))
  {
    ParseMeans(src, Entries(page));
    hide ParseAll;
    var next := Next(src, page);
    assert next.Some? ==> Announces(src, page, next.value);
  }

  // ----- no page twice -----

  /** The cursor that the reply to a request announces. */
  function Announced<V, T>(src: Source<V, T>, i: nat, cursor: Cursor): Cursor {
    match src.fetch(i, cursor)
    case Failure(_) => None
    case Success(page) => Next(src, page)
  }

  /** Requests with the same cursor were told the same next cursor. */
  ghost predicate AnnouncesAlike<V, T>(src: Source<V, T>, cs: seq<Cursor>) {
    forall i: nat, j: nat :: i < j < |cs| && cs[i] == cs[j] ==> Announced(src, i, cs[i]) == Announced(src, j, cs[j])
  }

  lemma LeadsAnnounces<V, T>(src: Source<V, T>, i: nat, cursor: Cursor, next: Cursor)
    requires Leads(src, i, cursor, next)
    ensures Announced(src, i, cursor) == next && next.Some? && next != cursor
  {
  }

  lemma EndsAnnounces<V, T>(src: Source<V, T>, i: nat, cursor: Cursor)
    requires Ends(src, i, cursor)
    ensures Announced(src, i, cursor) == None || Announced(src, i, cursor) == cursor
  {
  }

  /** Two requests with the same cursor would have the same sequel, which ends for the later one first. */
  lemma {:induction false} NoReturn<V, T>(src: Source<V, T>, cs: seq<Cursor>, i: nat, j: nat)
    requires i < j < |cs| && Chained(src, 0, cs[0], cs) && Ends(src, |cs| - 1, cs[|cs| - 1])
    requires AnnouncesAlike(src, cs)
    ensures cs[i] != cs[j]
    decreases |cs| - j
  {
    assert Leads(src, 0 + i, cs[i], cs[i + 1]);
    LeadsAnnounces(src, i, cs[i], cs[i + 1]);
    if j + 1 < |cs| {
      assert Leads(src, 0 + j, cs[j], cs[j + 1]);
      LeadsAnnounces(src, j, cs[j], cs[j + 1]);
      NoReturn(src, cs, i + 1, j + 1);
    } else {
      EndsAnnounces(src, j, cs[j]);
    }
    hide Chained, Leads, Ends, Announced;
  }

  /** The exact condition: a collection that succeeds fetched no cursor twice iff any two of its
      requests with the same cursor were told the same next cursor. Entries may differ. */
  lemma DistinctCondition<V, T>(src: Source<V, T>)
    requires Collect(src, 0, None, []).Success?
    ensures Distinct(Fetched(src, 0, None)) <==> AnnouncesAlike(src, Fetched(src, 0, None))
  {
    var cs := Fetched(src, 0, None);
    CollectsFetched(src, 0, None, []);
    FetchedFollowsCursors(src, 0, None);
    assert Chained(src, 0, cs[0], cs);
    hide Collect, Fetched, Concatenated, Chained, Ends, Announced;
    if AnnouncesAlike(src, cs) {
      forall i: nat, j: nat | i < j < |cs| ensures cs[i] != cs[j] {
        NoReturn(src, cs, i, j);
      }
    }
  }

  /** The reply depends on the cursor alone. */
  ghost predicate Pure<V, T>(src: Source<V, T>) {
    forall i, j, c :: src.fetch(i, c) == src.fetch(j, c)
  }

  /** In particular, a server that answers by cursor alone is never asked twice for the same page in
      a collection that succeeds. */
  lemma NoPageTwice<V, T>(src: Source<V, T>)
    requires Pure(src) && Collect(src, 0, None, []).Success?
    ensures Distinct(Fetched(src, 0, None)) && |Fetched(src, 0, None)| <= MAX_PAGES
    ensures Collect(src, 0, None, []).value == Concatenated(src, 0, Fetched(src, 0, None))
  {
    var cs := Fetched(src, 0, None);
    CollectsFetched(src, 0, None, []);
    assert [] + Concatenated(src, 0, cs) == Concatenated(src, 0, cs);
    assert AnnouncesAlike(src, cs);
    hide Collect, Fetched, Concatenated, Pure;
    DistinctCondition(src);
  }

  /** A server that changes its mind can have a page collected twice. */
  function Flickering(): Source<int, int> {
    Source((i: nat, c: Cursor) => Success(Page(Some([if c == Some("a") then 1 else 0]),
                                               if i < 3 then Some(if i == 1 then "b" else "a") else None, None)),
           v => Success(v), s => s == "")
  }

  lemma PageCanRepeat()
    ensures Collect(Flickering(), 0, None, []) == Success([0, 1, 0, 1])
    ensures Fetched(Flickering(), 0, None) == [None, Some("a"), Some("b"), Some("a")]
  {
    FlickeringPage(0, None);
    FlickeringPage(1, Some("a"));
    FlickeringPage(2, Some("b"));
    FlickeringPage(3, Some("a"));
    var src := Flickering();
    Turn(src, 0, None, []);
    Turn(src, 1, Some("a"), [] + [0]);
    Turn(src, 2, Some("b"), [] + [0] + [1]);
    Turn(src, 3, Some("a"), [] + [0] + [1] + [0]);
    hide Collect, Fetched, Continues, Ends, PageItems, NextOf, Flickering;
    assert [] + [0] + [1] + [0] + [1] == [0, 1, 0, 1];
  }

  lemma FlickeringPage(i: nat, c: Cursor)
    requires i <= 3 && c == [None, Some("a"), Some("b"), Some("a")][i]
    ensures var src := Flickering();
      && PageItems(src, i, c) == [if c == Some("a") then 1 else 0]
      && (i == 3 ==> Ends(src, i, c) && !Continues(src, i, c))
      && (i < 3 ==> Continues(src, i, c) && NextOf(src, i, c) == [Some("a"), Some("b"), Some("a")][i])
  {
    var src := Flickering();
    var v := if c == Some("a") then 1 else 0;
    assert Entries(src.fetch(i, c).value) == [v] && [v][1..] == [] && [] + [v] == [v];
    assert ParseAll(src, [v], []) == ParseAll(src, [], [v]);
    assert "a" != "b" && |"a"| == 1 && |"b"| == 1;
  }
}
