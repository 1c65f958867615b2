/**
  Paging: combinedThreadPage, the page cut of aggregateThreadList, and listAllThreads, of internal/mux/thread_list.go.
*/
module Paging {
  import opened Common
  import opened ThreadList
  import Text

  const DEFAULT_LIMIT := 20
  const MAXIMUM_LIMIT := 500
  const MAXIMUM_PAGES := 20
  const CURSOR_PREFIX := "codex-mux-offset:"

  /** The request's params, as far as they decode; a number or a string of another type is absent. */
  datatype Params = Malformed | Params(limit: Option<real>, cursor: Option<string>)

  datatype Page = Page(data: seq<Thread>, nextCursor: Option<string>)

  function LimitOf(params: Params): (limit: int)
    ensures 1 <= limit <= MAXIMUM_LIMIT
  {
    if params.Params? && params.limit.Some? && params.limit.value > 0.0 then
      var requested := params.limit.value;
      if requested < 1.0 then 1 else if requested >= MAXIMUM_LIMIT as real then MAXIMUM_LIMIT else requested.Floor
    else DEFAULT_LIMIT
  }

  /**
    The limit asked for is the limit, with its fraction cut off: at least 1, at most 500; 20 when none is asked for that
    makes sense.
  */
  lemma LimitExactly(params: Params)
    ensures var limit := LimitOf(params);
            if params.Params? && params.limit.Some? && params.limit.value > 0.0 then
              var asked := params.limit.value;
              && (asked >= 500.0 ==> limit == 500)
              && (asked < 1.0 ==> limit == 1)
              && (1.0 <= asked < 500.0 ==> limit as real <= asked < limit as real + 1.0)
            else limit == 20
  {
  }

  function OffsetOf(params: Params): nat {
    if params.Params? && params.cursor.Some? && Text.HasPrefix(params.cursor.value, CURSOR_PREFIX) then
      var parsed := Text.Atoi(params.cursor.value[|CURSOR_PREFIX|..]);
      if parsed.Some? && parsed.value > 0 then parsed.value else 0
    else 0
  }

  function PageOf(threads: seq<Thread>, params: Params): (page: Page)
    ensures |page.data| <= LimitOf(params)
  {
    var offset := if OffsetOf(params) > |threads| then |threads| else OffsetOf(params);
    var end := if offset + LimitOf(params) < |threads| then offset + LimitOf(params) else |threads|;
    Page(threads[offset..end], if end < |threads| then Some(CURSOR_PREFIX + Text.Decimal(end)) else None)
  }

  /** The cursor a page hands out is read back as the offset it was printed from. */
  lemma CursorRoundTrip(offset: nat, limit: Option<real>)
    requires 0 < offset <= Text.MAX_INT64
    ensures OffsetOf(Params(limit, Some(CURSOR_PREFIX + Text.Decimal(offset)))) == offset
  {
    Text.AtoiReadsDecimal(offset);
    var cursor := CURSOR_PREFIX + Text.Decimal(offset);
    assert cursor[|CURSOR_PREFIX|..] == Text.Decimal(offset);
    assert cursor[..|CURSOR_PREFIX|] == CURSOR_PREFIX;
  }

  /** The cursor is the router's, and spells this number. */
  ghost predicate Points(params: Params, offset: nat) {
    && params.Params? && params.cursor.Some?
    && exists number :: params.cursor.value == "codex-mux-offset:" + number && Text.Spells(number, offset)
  }

  /** A page starts further on if and only if its cursor is the router's and spells where, within 64 bits. */
  lemma OffsetExactly(params: Params, offset: nat)
    requires offset > 0
    ensures OffsetOf(params) == offset <==> Points(params, offset) && offset <= 0x7fff_ffff_ffff_ffff
  {
    hide Text.Atoi, Text.Spells;
    if params.Params? && params.cursor.Some? && Text.HasPrefix(params.cursor.value, CURSOR_PREFIX) {
      var number := params.cursor.value[|CURSOR_PREFIX|..];
      assert params.cursor.value == CURSOR_PREFIX + number;
      Text.AtoiExactly(number, offset);
    }
  }

  /** A page is as many threads from its offset as its limit allows and there are; more follow if a cursor is given. */
  lemma PageExactly(threads: seq<Thread>, params: Params)
    ensures var page, from, limit := PageOf(threads, params), OffsetOf(params), LimitOf(params);
            && (from >= |threads| ==> page == Page([], None))
            && (from < |threads| <= from + limit ==> page == Page(threads[from..], None))
            && (from + limit < |threads| ==>
                  page == Page(threads[from..from + limit], Some("codex-mux-offset:" + Text.Decimal(from + limit))))
  {
    hide LimitOf, OffsetOf, Text.Decimal;
  }

  /** A cursor the router could have handed out for this list, or none. */
  predicate OwnCursor(cursor: Option<string>, threads: seq<Thread>) {
    cursor.Some? ==> exists k: nat :: 0 < k < |threads| && cursor.value == CURSOR_PREFIX + Text.Decimal(k)
  }

  /** Asking from a cursor hands out either no cursor, on the last page, or one further on. */
  lemma PageAdvances(threads: seq<Thread>, limit: Option<real>, cursor: Option<string>)
    requires |threads| <= Text.MAX_INT64 && OwnCursor(cursor, threads)
    ensures var params := Params(limit, cursor);
            var from, page := OffsetOf(params), PageOf(threads, params);
            && from <= |threads| && (cursor.None? ==> from == 0)
            && OwnCursor(page.nextCursor, threads)
            && (match page.nextCursor
                case None => page.data == threads[from..]
                case Some(_) =>
                  var to := OffsetOf(Params(limit, page.nextCursor));
                  from < to < |threads| && page.data == threads[from..to] && |page.data| == LimitOf(params))
  {
    hide LimitOf, OffsetOf, Text.Decimal;
    NoCursorStartsAtZero(limit);
    if cursor.Some? {
      var k: nat :| 0 < k < |threads| && cursor.value == CURSOR_PREFIX + Text.Decimal(k);
      CursorRoundTrip(k, limit);
    }
    var params := Params(limit, cursor);
    var end := OffsetOf(params) + LimitOf(params);
    if end < |threads| {
      CursorRoundTrip(end, limit);
    }
  }

  lemma NoCursorStartsAtZero(limit: Option<real>)
    ensures OffsetOf(Params(limit, None)) == 0
  {
  }

  lemma OffsetIgnoresLimit(cursor: Option<string>, a: Option<real>, b: Option<real>)
    ensures OffsetOf(Params(a, cursor)) == OffsetOf(Params(b, cursor))
  {
  }

  /** Following nextCursor to the end; limits(n) is what the n-th request asks for. */
  function Follow(threads: seq<Thread>, limits: nat -> Option<real>, n: nat, cursor: Option<string>): seq<Page>
    requires |threads| <= Text.MAX_INT64 && OwnCursor(cursor, threads)
    decreases |threads| - OffsetOf(Params(None, cursor))
  {
    PageAdvances(threads, limits(n), cursor);
    OffsetIgnoresLimit(cursor, None, limits(n));
    var page := PageOf(threads, Params(limits(n), cursor));
    OffsetIgnoresLimit(page.nextCursor, None, limits(n));
    [page] + if page.nextCursor.None? then [] else Follow(threads, limits, n + 1, page.nextCursor)
  }

  /** One step of Follow, with what it hands on. */
  lemma FollowStep(threads: seq<Thread>, limits: nat -> Option<real>, n: nat, cursor: Option<string>)
    returns (page: Page)
    requires |threads| <= Text.MAX_INT64 && OwnCursor(cursor, threads)
    ensures page == PageOf(threads, Params(limits(n), cursor)) && OwnCursor(page.nextCursor, threads)
    ensures Follow(threads, limits, n, cursor) ==
            [page] + if page.nextCursor.None? then [] else Follow(threads, limits, n + 1, page.nextCursor)
    ensures var from := OffsetOf(Params(None, cursor));
            && from <= |threads|
            && (page.nextCursor.None? ==> page.data == threads[from..])
            && (page.nextCursor.Some? ==>
                  var to := OffsetOf(Params(None, page.nextCursor));
                  from < to < |threads| && page.data == threads[from..to])
  {
    hide LimitOf, OffsetOf, PageOf, OwnCursor, Text.Decimal;
    PageAdvances(threads, limits(n), cursor);
    OffsetIgnoresLimit(cursor, None, limits(n));
    page := PageOf(threads, Params(limits(n), cursor));
    OffsetIgnoresLimit(page.nextCursor, None, limits(n));
  }

  function Contents(pages: seq<Page>): seq<Thread> {
    if pages == [] then [] else pages[0].data + Contents(pages[1..])
  }

  lemma LimitIgnoresCursor(limit: Option<real>, a: Option<string>, b: Option<string>)
    ensures LimitOf(Params(limit, a)) == LimitOf(Params(limit, b))
  {
  }

  lemma {:induction false} FollowReachesTheEnd(threads: seq<Thread>, limits: nat -> Option<real>, n: nat,
                                               cursor: Option<string>)
    requires |threads| <= Text.MAX_INT64 && OwnCursor(cursor, threads)
    ensures var from, pages := OffsetOf(Params(None, cursor)), Follow(threads, limits, n, cursor);
            && from <= |threads|
            && Contents(pages) == threads[from..]
            && |pages| <= |threads| - from + 1
    decreases |threads| - OffsetOf(Params(None, cursor))
  {
    hide LimitOf, OffsetOf, PageOf, OwnCursor, Follow;
    var page := FollowStep(threads, limits, n, cursor);
    var pages := Follow(threads, limits, n, cursor);
    if page.nextCursor.Some? {
      FollowReachesTheEnd(threads, limits, n + 1, page.nextCursor);
      var later := Follow(threads, limits, n + 1, page.nextCursor);
      assert pages[1..] == later;
      var from, to := OffsetOf(Params(None, cursor)), OffsetOf(Params(None, page.nextCursor));
      assert threads[from..to] + threads[to..] == threads[from..];
    } else {
      assert pages[1..] == [];
    }
  }

  /** The n-th page is never longer than what the n-th request's limit allows. */
  lemma {:induction false} PagesFitTheirLimits(threads: seq<Thread>, limits: nat -> Option<real>, n: nat,
                                               cursor: Option<string>, i: nat)
    requires |threads| <= Text.MAX_INT64 && OwnCursor(cursor, threads)
    requires i < |Follow(threads, limits, n, cursor)|
    ensures |Follow(threads, limits, n, cursor)[i].data| <= LimitOf(Params(limits(n + i), None)) <= MAXIMUM_LIMIT
    decreases i
  {
    hide LimitOf, OffsetOf, OwnCursor, Follow;
    var page := FollowStep(threads, limits, n, cursor);
    LimitIgnoresCursor(limits(n), cursor, None);
    if i > 0 {
      PagesFitTheirLimits(threads, limits, n + 1, page.nextCursor, i - 1);
      assert n + 1 + (i - 1) == n + i;
    }
  }

  /** Following the cursors from the start ends, and the pages put together are the list, whatever limits are asked. */
  lemma PagingIsComplete(threads: seq<Thread>, limits: nat -> Option<real>)
    requires |threads| <= Text.MAX_INT64
    ensures Contents(Follow(threads, limits, 0, None)) == threads
    ensures |Follow(threads, limits, 0, None)| <= |threads| + 1
  {
    FollowReachesTheEnd(threads, limits, 0, None);
    assert OffsetOf(Params(None, None)) == 0 && threads[0..] == threads;
  }

  // ---- reading one account's history ----

  datatype Answer = Failed | Undecodable | Listed(data: seq<Thread>, nextCursor: Option<string>)

  datatype ListError = RequestFailed | BadResponse | RepeatedCursor | TooManyPages

  predicate Continues(a: Answer) {
    a.Listed? && a.nextCursor.Some? && a.nextCursor.value != ""
  }

  /** The answer says to go on from this cursor. */
  predicate LeadsTo(a: Answer, cursor: string) {
    Continues(a) && a.nextCursor == Some(cursor)
  }

  function DataOf(answers: seq<Answer>): seq<Thread> {
    if answers == [] then []
    else
      var last := answers[|answers| - 1];
      DataOf(answers[..|answers| - 1]) + (if last.Listed? then last.data else [])
  }

  /** What the account is asked, in order: the first page, then each cursor it handed out. */
  ghost predicate Asked(cursors: seq<string>, answers: seq<Answer>, account: string -> Answer) {
    && |cursors| == |answers| && cursors != [] && cursors[0] == ""
    && (forall i :: 0 <= i < |answers| ==> answers[i] == account(cursors[i]))
    && (forall i :: 0 < i < |cursors| ==> LeadsTo(answers[i - 1], cursors[i]))
    && (forall i, j :: 0 <= i < j < |cursors| ==> cursors[i] != cursors[j])
  }

  /**
    listAllThreads against an account that answers a cursor ("" for the first page) in a fixed way. It never asks
    twice for the same cursor nor for more than MAXIMUM_PAGES pages, returns all it was given on the way even when
    it fails, and succeeds exactly when it comes to a page without a cursor.
  */
  method ListAllThreads(account: string -> Answer)
    returns (threads: seq<Thread>, error: Option<ListError>, cursors: seq<string>, answers: seq<Answer>)
    ensures Asked(cursors, answers, account) && |cursors| <= 20
    ensures threads == DataOf(answers)
    ensures var last := answers[|answers| - 1];
            match error
            case None => last.Listed? && !Continues(last)
            case Some(RequestFailed) => last.Failed?
            case Some(BadResponse) => last.Undecodable?
            case Some(RepeatedCursor) => Continues(last) && last.nextCursor.value in cursors
            case Some(TooManyPages) =>
              Continues(last) && last.nextCursor.value !in cursors && |cursors| == 20
  {
    hide Asked, DataOf;
    threads, cursors, answers := [], [], [];
    var seenCursors: set<string> := {};
    var cursor := "";
    var page := 0;
    NothingAsked(account);
    while page < MAXIMUM_PAGES
      invariant 0 <= page <= MAXIMUM_PAGES && |cursors| == page
      invariant MayAsk(cursors, answers, account, cursor, seenCursors)
      invariant page > 0 ==>
                  Asked(cursors, answers, account) && Continues(answers[page - 1]) &&
                  answers[page - 1].nextCursor == Some(cursor)
      invariant threads == DataOf(answers)
    {
      var answer := account(cursor);
      AskOneMore(cursors, answers, account, cursor, seenCursors);
      cursors, answers := cursors + [cursor], answers + [answer];
      match answer {
        case Failed => return threads, Some(RequestFailed), cursors, answers;
        case Undecodable => return threads, Some(BadResponse), cursors, answers;
        case Listed(data, nextCursor) =>
          threads := threads + data;
          if nextCursor.None? || nextCursor.value == "" {
            return threads, None, cursors, answers;
          }
          cursor := nextCursor.value;
          if cursor in seenCursors {
            return threads, Some(RepeatedCursor), cursors, answers;
          }
          seenCursors := seenCursors + {cursor};
      }
      page := page + 1;
    }
    return threads, Some(TooManyPages), cursors, answers;
  }

  /** cursor may be asked for next: it follows from the last answer and has not been asked for. */
  ghost predicate MayAsk(cursors: seq<string>, answers: seq<Answer>, account: string -> Answer, cursor: string,
                         seen: set<string>) {
    && |cursors| == |answers|
    && (if cursors == [] then cursor == "" && seen == {}
        else Asked(cursors, answers, account) && Continues(answers[|answers| - 1]) &&
             answers[|answers| - 1].nextCursor == Some(cursor) && cursor in seen)
    && cursor !in cursors
    && (forall c :: c in seen <==> c != "" && (c in cursors || c == cursor))
  }

  lemma NothingAsked(account: string -> Answer)
    ensures MayAsk([], [], account, "", {}) && DataOf([]) == []
  {
  }

  lemma AskedOneMore(cursors: seq<string>, answers: seq<Answer>, account: string -> Answer, cursor: string,
                     seen: set<string>)
    requires MayAsk(cursors, answers, account, cursor, seen)
    ensures Asked(cursors + [cursor], answers + [account(cursor)], account)
  {
    if cursors == [] {
      assert cursors + [cursor] == [""] && answers + [account(cursor)] == [account("")];
    } else {
      assert Asked(cursors, answers, account) && cursor !in cursors;
      hide MayAsk;
      FollowsOneMore(cursors, answers, account, cursor);
      AnswersOneMore(cursors, answers, account, cursor);
      DistinctOneMore(cursors, cursor);
      hide LeadsTo;
    }
  }

  lemma FollowsOneMore(cursors: seq<string>, answers: seq<Answer>, account: string -> Answer, cursor: string)
    requires Asked(cursors, answers, account) && LeadsTo(answers[|answers| - 1], cursor)
    ensures var asked, given := cursors + [cursor], answers + [account(cursor)];
            forall i :: 0 < i < |asked| ==> LeadsTo(given[i - 1], asked[i])
  {
    hide LeadsTo;
    var asked, given := cursors + [cursor], answers + [account(cursor)];
    forall i | 0 < i < |asked|
      ensures LeadsTo(given[i - 1], asked[i])
    {
      assert given[i - 1] == answers[i - 1];
      assert asked[i] == if i < |cursors| then cursors[i] else cursor;
    }
  }

  lemma AnswersOneMore(cursors: seq<string>, answers: seq<Answer>, account: string -> Answer, cursor: string)
    requires |cursors| == |answers| && forall i :: 0 <= i < |answers| ==> answers[i] == account(cursors[i])
    ensures var asked, given := cursors + [cursor], answers + [account(cursor)];
            forall i :: 0 <= i < |given| ==> given[i] == account(asked[i])
  {
  }

  lemma DistinctOneMore(cursors: seq<string>, cursor: string)
    requires cursor !in cursors && forall i, j :: 0 <= i < j < |cursors| ==> cursors[i] != cursors[j]
    ensures var asked := cursors + [cursor]; forall i, j :: 0 <= i < j < |asked| ==> asked[i] != asked[j]
  {
  }

  lemma DataOfOneMore(answers: seq<Answer>, answer: Answer)
    ensures DataOf(answers + [answer]) == DataOf(answers) + (if answer.Listed? then answer.data else [])
  {
    assert (answers + [answer])[..|answers|] == answers;
  }

  /** The threads of all the pages, in the order the pages came in. */
  lemma {:induction false} DataInOrder(before: seq<Answer>, after: seq<Answer>)
    ensures DataOf(before + after) == DataOf(before) + DataOf(after)
  {
    if after == [] {
      assert before + after == before;
    } else {
      var front, last := after[..|after| - 1], after[|after| - 1];
      assert after == front + [last] && before + after == before + front + [last];
      DataInOrder(before, front);
      DataOfOneMore(before + front, last);
      DataOfOneMore(front, last);
      hide DataOf;
    }
  }

  lemma DataOfOne(answer: Answer)
    ensures DataOf([answer]) == if answer.Listed? then answer.data else []
  {
    DataOfOneMore([], answer);
    assert [] + [answer] == [answer];
  }

  lemma AskOneMore(cursors: seq<string>, answers: seq<Answer>, account: string -> Answer, cursor: string,
                   seen: set<string>)
    requires MayAsk(cursors, answers, account, cursor, seen)
    ensures var asked, given, answer := cursors + [cursor], answers + [account(cursor)], account(cursor);
            && Asked(asked, given, account)
            && DataOf(given) == DataOf(answers) + (if answer.Listed? then answer.data else [])
            && (Continues(answer) ==> (answer.nextCursor.value in seen <==> answer.nextCursor.value in asked))
            && (Continues(answer) && answer.nextCursor.value !in seen ==>
                  MayAsk(asked, given, account, answer.nextCursor.value, seen + {answer.nextCursor.value}))
  {
    hide Asked, DataOf;
    AskedOneMore(cursors, answers, account, cursor, seen);
    DataOfOneMore(answers, account(cursor));
  }
}
