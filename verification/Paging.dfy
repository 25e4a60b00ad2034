/**
 Page tokens and the pagination protocol of the list endpoints.

 A server is a function from page number to a page or an error. One drain of the endpoint
 asks for each page at most once, so for one drain such a function also covers a server
 whose answers change from one request to the next; two drains of the same function assume
 that they do not.
 */
module Paging {
  import opened GoResult
  import opened Strconv

  type Pages<T> = int -> Result<seq<T>>

  function NextToken<T>(limit: int, response: seq<T>, page: int): string {
    if |response| == limit then Itoa(Successor(page)) else ""
  }

  function PageOfToken(token: string): Result<int> {
    if token == "" then Ok(0)
    else match Atoi(token)
      case Err(_) => Err(InvalidPaginationToken)
      case Ok(page) => Ok(page)
  }

  /** One list request: parse the token, fetch the page, print the next token. */
  function GetPage<T>(pages: Pages<T>, limit: int, token: string): Result<(seq<T>, string)> {
    match PageOfToken(token)
    case Err(e) => Err(e)
    case Ok(page) =>
      match pages(page)
      case Err(e) => Err(e)
      case Ok(response) => Ok((response, NextToken(limit, response, page)))
  }

  /** The token under which a drain asks for page `n`. */
  function TokenOf(n: nat): string {
    if n == 0 then "" else Itoa(n)
  }

  /** Page `last` is the first that fails or is not full. */
  ghost predicate StopsAt<T(!new)>(pages: Pages<T>, limit: int, last: nat) {
    && last <= MAX_INT
    && (forall n :: 0 <= n < last ==> pages(n).Ok? && |pages(n).value| == limit)
    && (pages(last).Ok? ==> |pages(last).value| != limit)
  }

  /** The rows on the first `n` pages, in order; a page that fails contributes nothing. */
  function Fetched<T>(pages: Pages<T>, n: nat): seq<T> {
    if n == 0 then []
    else Fetched(pages, n - 1) + if pages(n - 1).Ok? then pages(n - 1).value else []
  }

  /** How many rows come before page `n`: `n` pages of `limit` rows. */
  function Offset(limit: nat, n: nat): nat {
    if n == 0 then 0 else Offset(limit, n - 1) + limit
  }

  lemma FetchedNext<T>(pages: Pages<T>, n: nat)
    ensures Fetched(pages, 0) == []
    ensures pages(n).Ok? ==> Fetched(pages, n + 1) == Fetched(pages, n) + pages(n).value
    ensures pages(n).Err? ==> Fetched(pages, n + 1) == Fetched(pages, n)
  {
  }

  /** Whatever the sizes of the pages, page `m` stands whole behind what the pages before it hold. */
  lemma {:induction false} FetchedHoldsPage<T(!new)>(pages: Pages<T>, n: nat, m: nat)
    requires m < n && pages(m).Ok?
    ensures Fetched(pages, m) + pages(m).value <= Fetched(pages, n)
  {
    FetchedNext(pages, n - 1);
    if m == n - 1 {
    } else {
      FetchedHoldsPage(pages, n - 1, m);
    }
  }

  /** A row is fetched if and only if one of the pages asked for holds it. */
  lemma {:induction false} FetchedMeaning<T(!new)>(pages: Pages<T>, n: nat, x: T)
    ensures x in Fetched(pages, n) <==> exists m :: 0 <= m < n && pages(m).Ok? && x in pages(m).value
  {
    if n == 0 {
    } else {
      FetchedNext(pages, n - 1);
      FetchedMeaning(pages, n - 1, x);
    }
  }

  /** The 0-based page `n` of a fixed list. */
  function PageOf<T>(list: seq<T>, limit: nat, n: nat): seq<T> {
    var from := Offset(limit, n);
    if |list| <= from then [] else if |list| <= from + limit then list[from..] else list[from..from + limit]
  }

  ghost predicate ServesList<T(!new)>(pages: Pages<T>, limit: nat, list: seq<T>) {
    forall n: nat :: pages(n) == Ok(PageOf(list, limit, n))
  }

  /** From every page number, the printed token is parsed back to Go's next one and is never the end marker. */
  lemma NextTokenRoundTrips<T>(limit: int, response: seq<T>, page: int)
    requires IsInt(page)
    ensures NextToken(limit, response, page) != "" <==> |response| == limit
    ensures |response| == limit ==>
              PageOfToken(NextToken(limit, response, page)) ==
              Ok(if page == 9223372036854775807 then -9223372036854775808 else page + 1)
  {
    AtoiOfItoa(Successor(page));
  }

  /**
   What one list request does, case by case: the empty token asks for page 0, a token that
   parses asks for its number, any other token asks for nothing; a failing page is the
   answer; and the next token is the printed next page number after a full page only.
   */
  lemma GetPageMeaning<T>(pages: Pages<T>, limit: int, token: string)
    ensures token != "" && Atoi(token).Err? ==>
              PageOfToken(token).Err? && GetPage(pages, limit, token) == Err(InvalidPaginationToken)
    ensures token == "" || Atoi(token).Ok? ==>
              var page := if token == "" then 0 else Atoi(token).value;
              && PageOfToken(token) == Ok(page)
              && (pages(page).Err? ==> GetPage(pages, limit, token) == Err(pages(page).error))
              && (pages(page).Ok? ==>
                    GetPage(pages, limit, token) ==
                    Ok((pages(page).value,
                        if |pages(page).value| != limit then ""
                        else Itoa(if page == 9223372036854775807 then -9223372036854775808 else page + 1))))
  {
    var page := pages(if token == "" then 0 else if Atoi(token).Ok? then Atoi(token).value else 0);
  }

  lemma TokenParses(n: nat)
    requires n <= MAX_INT
    ensures PageOfToken(TokenOf(n)) == Ok(n)
  {
    if n > 0 {
      AtoiOfItoa(n);
    }
  }

  /** Following tokens from the empty one visits pages 0, 1, ..., last, and only page `last` ends the chain. */
  lemma TokenChain<T(!new)>(pages: Pages<T>, limit: int, last: nat, n: nat)
    requires StopsAt(pages, limit, last) && n <= last
    ensures GetPage(pages, limit, TokenOf(n)) ==
            if n < last then Ok((pages(n).value, TokenOf(n + 1)))
            else if pages(last).Ok? then Ok((pages(last).value, ""))
            else Err(pages(last).error)
    ensures TokenOf(n + 1) != ""
  {
    TokenParses(n);
    SignOfItoa(n + 1);
    if n < last {
      assert Successor(n) == n + 1;
    }
  }

  lemma StopIsUnique<T(!new)>(pages: Pages<T>, limit: int, a: nat, b: nat)
    requires StopsAt(pages, limit, a) && StopsAt(pages, limit, b)
    ensures a == b
  {
    var atA, atB := pages(a), pages(b);
  }

  /** Every server that ever fails or gives a page that is not full makes a drain stop. */
  lemma {:induction false} StopExists<T(!new)>(pages: Pages<T>, limit: int, from: nat, k: nat) returns (last: nat)
    requires from <= k <= MAX_INT
    requires pages(k).Ok? ==> |pages(k).value| != limit
    requires forall n :: 0 <= n < from ==> pages(n).Ok? && |pages(n).value| == limit
    ensures last <= k && StopsAt(pages, limit, last)
    decreases k - from
  {
    if pages(from).Ok? && |pages(from).value| == limit {
      last := StopExists(pages, limit, from + 1, k);
    } else {
      last := from;
    }
  }

  lemma {:induction false} OffsetIsProduct(limit: nat, n: nat)
    ensures Offset(limit, n) == n * limit
  {
    if n == 0 {
    } else {
      OffsetIsProduct(limit, n - 1);
      assert n * limit == (n - 1) * limit + limit;
    }
  }

  lemma {:induction false} OffsetGrows(limit: nat, m: nat, n: nat)
    requires m <= n
    ensures Offset(limit, m) <= Offset(limit, n)
    ensures limit >= 1 ==> n <= Offset(limit, n)
    decreases n
  {
    if n == 0 {
    } else {
      OffsetGrows(limit, if m < n then m else n - 1, n - 1);
    }
  }

  lemma DivisionSplits(a: nat, b: nat)
    requires b >= 1
    ensures 0 <= a / b && 0 <= a % b < b && a == Offset(b, a / b) + a % b
  {
    assert a == (a / b) * b + a % b;
    OffsetIsProduct(b, a / b);
  }

  lemma PageBetweenOffsets<T>(list: seq<T>, limit: nat, n: nat)
    requires Offset(limit, n + 1) <= |list|
    ensures PageOf(list, limit, n) == list[Offset(limit, n)..Offset(limit, n + 1)]
  {
  }

  lemma PrefixExtends<T>(list: seq<T>, from: nat, to: nat)
    requires from <= to <= |list|
    ensures list[..from] + list[from..to] == list[..to]
  {
  }

  lemma {:induction false} FetchedPrefix<T(!new)>(pages: Pages<T>, limit: nat, list: seq<T>, n: nat)
    requires ServesList(pages, limit, list) && Offset(limit, n) <= |list|
    ensures Fetched(pages, n) == list[..Offset(limit, n)]
  {
    if n == 0 {
    } else {
      FetchedPrefix(pages, limit, list, n - 1);
      PageBetweenOffsets(list, limit, n - 1);
      PrefixExtends(list, Offset(limit, n - 1), Offset(limit, n));
      var page := pages(n - 1);
    }
  }

  lemma FullPage<T>(list: seq<T>, limit: nat, n: nat, q: nat)
    requires n < q && Offset(limit, q) <= |list|
    ensures |PageOf(list, limit, n)| == limit
  {
    OffsetGrows(limit, n + 1, q);
  }

  /** The drain of a list of `q` full pages and `r` rows more. */
  lemma ListOfPagesDrains<T(!new)>(pages: Pages<T>, limit: nat, list: seq<T>, q: nat, r: nat)
    requires |list| <= MAX_INT && ServesList(pages, limit, list)
    requires |list| == Offset(limit, q) + r && r < limit
    ensures StopsAt(pages, limit, q)
    ensures Fetched(pages, q + 1) == list
    ensures pages(q).Ok? && |pages(q).value| == r
  {
    var from := Offset(limit, q);
    OffsetGrows(limit, 0, q);
    FetchedPrefix(pages, limit, list, q);
    var page := pages(q);
    assert list[..from] + list[from..] == list;
    forall n | 0 <= n < q ensures pages(n).Ok? && |pages(n).value| == limit {
      FullPage(list, limit, n, q);
    }
  }

  /**
   A drain of a fixed list served in 0-based pages of `limit` rows stops after exactly
   |list| / limit + 1 requests, having fetched every row once and in order. When `limit`
   divides the length, the last of those pages is empty.
   */
  lemma StableListDrains<T(!new)>(pages: Pages<T>, limit: nat, list: seq<T>)
    requires limit >= 1 && |list| <= MAX_INT
    requires ServesList(pages, limit, list)
    ensures StopsAt(pages, limit, |list| / limit)
    ensures Fetched(pages, |list| / limit + 1) == list
    ensures |pages(|list| / limit).value| == |list| % limit
  {
    DivisionSplits(|list|, limit);
    ListOfPagesDrains(pages, limit, list, |list| / limit, |list| % limit);
  }

  /** The page any drain of a fixed list stops at, and what it has fetched by then. */
  lemma StableListStop<T(!new)>(pages: Pages<T>, limit: nat, list: seq<T>, last: nat)
    requires limit >= 1 && |list| <= MAX_INT
    requires ServesList(pages, limit, list) && StopsAt(pages, limit, last)
    ensures last == |list| / limit
    ensures Fetched(pages, last + 1) == list
  {
    DivisionSplits(|list|, limit);
    var q: nat, r: nat := |list| / limit, |list| % limit;
    ListOfPagesDrains(pages, limit, list, q, r);
    StopIsUnique(pages, limit, last, q);
  }

  /** A server that numbers its pages from 1 and takes page 0 for page 1. */
  ghost predicate ServesListFromOne<T(!new)>(pages: Pages<T>, limit: nat, list: seq<T>) {
    && pages(0) == Ok(PageOf(list, limit, 0))
    && forall n: nat :: n >= 1 ==> pages(n) == Ok(PageOf(list, limit, n - 1))
  }

  lemma ConcatAssociates<T>(a: seq<T>, b: seq<T>, c: seq<T>)
    ensures (a + b) + c == a + (b + c)
  {
  }

  /** A drain of pages shifted by one starts with the extra first page. */
  lemma {:induction false} FetchedFromOne<T(!new)>(pages: Pages<T>, shifted: Pages<T>, first: seq<T>, n: nat)
    requires pages(0) == Ok(first)
    requires forall k: nat :: pages(k + 1) == shifted(k)
    ensures Fetched(pages, n + 1) == first + Fetched(shifted, n)
  {
    if n == 0 {
      assert Fetched(pages, 1) == Fetched(pages, 0) + first;
    } else {
      FetchedFromOne(pages, shifted, first, n - 1);
      var page := shifted(n - 1);
      var rows := if page.Ok? then page.value else [];
      assert pages(n - 1 + 1) == page;
      assert Fetched(pages, n + 1) == Fetched(pages, n) + rows;
      ConcatAssociates(first, Fetched(shifted, n - 1), rows);
    }
  }

  lemma ShiftedStop<T(!new)>(pages: Pages<T>, shifted: Pages<T>, limit: int, q: nat)
    requires pages(0).Ok? && |pages(0).value| == limit
    requires forall k: nat :: pages(k + 1) == shifted(k)
    requires StopsAt(shifted, limit, q) && q < MAX_INT
    ensures StopsAt(pages, limit, q + 1)
  {
    forall n | 0 <= n < q + 1 ensures pages(n).Ok? && |pages(n).value| == limit {
      if n > 0 {
        assert pages(n - 1 + 1) == shifted(n - 1);
      }
    }
    assert pages(q + 1) == shifted(q);
  }

  lemma ShortListFromOne<T(!new)>(pages: Pages<T>, limit: nat, list: seq<T>, last: nat)
    requires |list| < limit
    requires ServesListFromOne(pages, limit, list) && StopsAt(pages, limit, last)
    ensures Fetched(pages, last + 1) == list
  {
    StopIsUnique(pages, limit, 0, last);
    assert Fetched(pages, 1) == Fetched(pages, 0) + list;
  }

  lemma LongListFromOne<T(!new)>(pages: Pages<T>, shifted: Pages<T>, limit: nat, list: seq<T>, q: nat, last: nat)
    requires pages(0).Ok? && |pages(0).value| == limit
    requires forall k: nat :: pages(k + 1) == shifted(k)
    requires StopsAt(shifted, limit, q) && q < MAX_INT && Fetched(shifted, q + 1) == list
    requires StopsAt(pages, limit, last)
    ensures Fetched(pages, last + 1) == pages(0).value + list
  {
    ShiftedStop(pages, shifted, limit, q);
    StopIsUnique(pages, limit, q + 1, last);
    FetchedFromOne(pages, shifted, pages(0).value, q + 1);
  }

  /** The pages a server that numbers from 1 should have given. */
  function Unshifted<T>(pages: Pages<T>): Pages<T> {
    n => pages(n + 1)
  }

  lemma UnshiftedServes<T(!new)>(pages: Pages<T>, limit: nat, list: seq<T>)
    requires ServesListFromOne(pages, limit, list)
    ensures ServesList(Unshifted(pages), limit, list)
  {
    forall n: nat ensures Unshifted(pages)(n) == Ok(PageOf(list, limit, n)) {
      assert pages(n + 1) == Ok(PageOf(list, limit, n + 1 - 1));
    }
  }

  /**
   Why the 0-based numbering matters: against a server that takes page 0 for page 1 the
   drain is right if and only if the whole list is shorter than one page; otherwise the
   first page arrives twice.
   */
  lemma OneBasedServerDrains<T(!new)>(pages: Pages<T>, limit: nat, list: seq<T>, last: nat)
    requires limit >= 1 && |list| < MAX_INT
    requires ServesListFromOne(pages, limit, list)
    requires StopsAt(pages, limit, last)
    ensures Fetched(pages, last + 1) == if |list| < limit then list else PageOf(list, limit, 0) + list
    ensures Fetched(pages, last + 1) == list <==> |list| < limit
  {
    if |list| < limit {
      ShortListFromOne(pages, limit, list, last);
    } else {
      UnshiftedServes(pages, limit, list);
      DivisionSplits(|list|, limit);
      OffsetGrows(limit, 0, |list| / limit);
      var q: nat, r: nat := |list| / limit, |list| % limit;
      ListOfPagesDrains(Unshifted(pages), limit, list, q, r);
      LongListFromOne(pages, Unshifted(pages), limit, list, q, last);
    }
  }
}
