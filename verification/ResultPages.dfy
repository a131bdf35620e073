/** One page of the native results endpoint and the strict checks made before it is used. */
module ResultPages {
  import opened Wrappers

  /** An athlete row. `recordKey` and `dedupeKey` are the digests of its identifying columns and
      `body` everything else that is stored, except the extraction time. */
  datatype Record = Record(recordKey: string, dedupeKey: string, body: string)

  /** A page is identified by its records: its content digest is injective on them. */
  datatype Page = Page(records: seq<Record>, expected: Option<nat>, nextOffset: nat, hasMore: bool)

  /** The decoded response; each field is absent when the endpoint did not send it. */
  datatype Payload =
    Payload(ok: Option<bool>, rows: Option<seq<Record>>, recordsTotal: Option<nat>, recordsFiltered: Option<nat>,
            nextOffset: Option<nat>, hasMore: Option<bool>)

  datatype PageError =
    | EndpointFailed | RowsMissing | TotalsDiverge | PaginationGap | EndUnconfirmed | NotAdvancing

  function ParseResultPage(payload: Payload, offset: nat): (r: Result<Page, PageError>)
    ensures r.Success? ==> WellFormedPage(r.value, offset)
    ensures r.Success? ==> payload.rows == Some(r.value.records)
    ensures r.Success? ==> r.value.expected == if payload.recordsTotal.Some? then payload.recordsTotal else payload.recordsFiltered
    ensures r.Failure? <==>
              || payload.ok == Some(false) || payload.rows.None?
              || (payload.recordsTotal.Some? && payload.recordsFiltered.Some? && payload.recordsTotal != payload.recordsFiltered)
              || (payload.nextOffset.Some? && payload.nextOffset.value != offset + |payload.rows.value|)
              || (payload.hasMore.None? && payload.recordsTotal.None? && payload.recordsFiltered.None?)
              || (payload.hasMore == Some(true) && payload.rows.value == [])
              || exists total :: (payload.recordsTotal == Some(total) || payload.recordsFiltered == Some(total))
                                 && Contradicts(payload.hasMore, offset, |payload.rows.value|, total)
    ensures r.Success? && payload.hasMore.Some? ==> r.value.hasMore == payload.hasMore.value
    ensures r.Failure? && r.error == EndUnconfirmed ==> payload.hasMore.None? && payload.recordsTotal.None? && payload.recordsFiltered.None?
  {
    if payload.ok == Some(false) then Failure(EndpointFailed)
    else if payload.rows.None? then Failure(RowsMissing)
    else
      var a, b := payload.recordsTotal, payload.recordsFiltered;
      if a.Some? && b.Some? && a != b then Failure(TotalsDiverge)
      else
        var expected := if a.Some? then a else b;
        var records := payload.rows.value;
        var next := if payload.nextOffset.Some? then payload.nextOffset.value else offset + |records|;
        if next != offset + |records| then Failure(PaginationGap)
        else if payload.hasMore.None? && expected.None? then Failure(EndUnconfirmed)
        else
          var more := if payload.hasMore.Some? then payload.hasMore.value else next < expected.value;
          if more && (records == [] || next <= offset) then Failure(NotAdvancing)
          else if expected.Some? && (next > expected.value || more != (next < expected.value)) then Failure(TotalsDiverge)
          else Success(Page(records, expected, next, more))
  }

  /** The page goes past the announced total, stops short of it without saying so, or says it goes on
      where the total is reached; with the end left open, it must not stall short of the total. */
  predicate Contradicts(hasMore: Option<bool>, offset: nat, count: nat, total: nat) {
    || offset + count > total
    || (hasMore.Some? && hasMore.value != (offset + count < total))
    || (hasMore.None? && count == 0 && offset < total)
  }

  /** What every accepted page satisfies: it advances by its own rows, and a missing total or a
      missing end is never taken for the end of the group. */
  predicate WellFormedPage(page: Page, offset: nat) {
    && page.nextOffset == offset + |page.records|
    && (page.hasMore ==> page.records != [])
    && (page.expected.Some? ==>
          page.nextOffset <= page.expected.value && (page.hasMore <==> page.nextOffset < page.expected.value))
  }
}
