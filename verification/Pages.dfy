/** Paging through an account's transactions by following the next-page token. */
module Pages {
  import opened Prelude
  import opened Ledger

  // ---------- the wire: page tokens and narrow integers ----------

  function Digit(d: nat): char
    requires d < 10
  {
    "0123456789"[d]
  }

  /** strconv.Itoa, on naturals. */
  function Itoa(n: nat): (s: string)
    ensures |s| > 0
  {
    if n < 10 then [Digit(n)] else Itoa(n / 10) + [Digit(n % 10)]
  }

  function DigitValue(c: char): Option<nat>
  {
    if '0' <= c <= '9' then Some((c as int - '0' as int) as nat) else None
  }

  const UINT64_MAX := 0xFFFF_FFFF_FFFF_FFFF

  /** Digits read from the left, up to the first character that is no digit or does not fit 64 bits. */
  datatype Scanned = Malformed | TooLarge | Number(n: nat)

  function Scan(s: string): Scanned
  {
    if s == [] then Number(0)
    else match Scan(s[..|s| - 1])
      case Number(v) =>
        (match DigitValue(s[|s| - 1])
         case None => Malformed
         case Some(d) => if 10 * v + d > UINT64_MAX then TooLarge else Number(10 * v + d))
      case stopped => stopped
  }

  /** The number strconv.Atoi returns, its error ignored: 0 if malformed, the nearest 64-bit integer if out of range. */
  function Atoi(s: string): int
  {
    var negative := s != [] && s[0] == '-';
    var digits := if s != [] && s[0] in {'+', '-'} then s[1..] else s;
    if digits == [] || Scan(digits).Malformed? then 0
    else
      var n := if Scan(digits).Number? then Scan(digits).n else UINT64_MAX;
      if negative then -Min(n, -INT64_MIN) else Min(n, INT64_MAX)
  }

  lemma DigitRoundTrip(d: nat)
    requires d < 10
    ensures DigitValue(Digit(d)) == Some(d)
  {
  }

  lemma {:induction false} ScanItoa(n: nat)
    ensures Itoa(n)[0] !in {'+', '-'}
    ensures Scan(Itoa(n)) == if n <= UINT64_MAX then Number(n) else TooLarge
  {
    var s := Itoa(n);
    if n < 10 {
      DigitRoundTrip(n);
      assert s[..0] == [];
    } else {
      ScanItoa(n / 10);
      DigitRoundTrip(n % 10);
      assert s[..|s| - 1] == Itoa(n / 10);
    }
  }

  /** The token of a page reads back as that page, as long as it fits 64 bits. */
  lemma TokenRoundTrip(n: nat)
    ensures Atoi(Itoa(n)) == Min(n, INT64_MAX)
  {
    ScanItoa(n);
  }

  function ToInt32(x: int): int
  {
    (x + 0x8000_0000) % 0x1_0000_0000 - 0x8000_0000
  }

  function ToInt8(x: int): int
  {
    (x + 128) % 256 - 128
  }

  /** The page a request names, narrowed to 32 bits. */
  function RequestedPage(token: string): int
  {
    ToInt32(Atoi(token))
  }

  /** A token that begins with neither a digit nor a sign names page 0. */
  lemma MalformedToken(token: string)
    requires token == "" || !('0' <= token[0] <= '9' || token[0] in {'+', '-'})
    ensures RequestedPage(token) == 0
  {
    if token != "" { MalformedScan(token); }
  }

  lemma {:induction false} MalformedScan(s: string)
    requires s != "" && !('0' <= s[0] <= '9')
    ensures Scan(s) == Malformed
  {
    if |s| > 1 { MalformedScan(s[..|s| - 1]); } else { assert s[..0] == []; }
  }

  /** The page size used: the 32-bit size on the wire is narrowed to 8 bits, and then at least 8. */
  function EffectiveSize(pageSize: int): (size: nat)
    ensures 8 <= size <= 127
    ensures 8 <= pageSize <= 127 ==> size == pageSize
    ensures -128 <= pageSize < 8 || 128 <= pageSize < 256 ==> size == 8
  {
    if ToInt8(pageSize) < 8 then 8 else ToInt8(pageSize)
  }

  // ---------- the query ----------

  predicate Touches(r: Row, account: string)
  {
    r.from == account || r.to == account
  }

  /** The account's rows in query order. */
  function AccountRows(ordered: seq<Row>, account: string): seq<Row>
  {
    if ordered == [] then []
    else if Touches(ordered[0], account) then [ordered[0]] + AccountRows(ordered[1..], account)
    else AccountRows(ordered[1..], account)
  }

  /** The account's rows are those that leave or enter it, incoming transfers included, each as often as it is there. */
  lemma {:induction false} AccountRowsAreItsRows(ordered: seq<Row>, account: string, r: Row)
    ensures multiset(AccountRows(ordered, account))[r] == if r.from == account || r.to == account then multiset(ordered)[r] else 0
  {
    if ordered != [] {
      AccountRowsAreItsRows(ordered[1..], account, r);
      assert ordered == [ordered[0]] + ordered[1..];
    }
  }

  /** ... in the order in which they are there. */
  lemma {:induction false} AccountRowsInOrder(earlier: seq<Row>, later: seq<Row>, account: string)
    ensures AccountRows(earlier + later, account) == AccountRows(earlier, account) + AccountRows(later, account)
  {
    if earlier == [] {
      assert earlier + later == later;
    } else {
      AccountRowsInOrder(earlier[1..], later, account);
      assert (earlier + later)[1..] == earlier[1..] + later;
    }
  }

  /** LIMIT and OFFSET. */
  function Slice(rows: seq<Row>, offset: nat, limit: nat): seq<Row>
  {
    if offset >= |rows| then [] else if offset + limit >= |rows| then rows[offset..] else rows[offset..offset + limit]
  }

  /** One request against the account's rows: the page and the token of the next one, empty if there is none. */
  method ListTransactions(rows: seq<Row>, accountId: string, page: int, pageSize: int)
    returns (ok: bool, transactions: seq<Row>, token: string)
    ensures ok <==> accountId != ""
    ensures ok ==> var size, p := EffectiveSize(pageSize), if page < 0 then 0 else page;
                   && transactions == Slice(rows, p * size, size)
                   && |transactions| == (if |rows| <= p * size then 0
                                         else if |rows| < p * size + size then |rows| - p * size else size)
                   && (forall i :: 0 <= i < |transactions| ==> transactions[i] == rows[p * size + i])
                   && token == if |transactions| == size then Itoa(p + 1) else ""
  {
    transactions, token := [], "";
    if accountId == "" {
      return false, transactions, token;
    }
    var size := ToInt8(pageSize);
    if size < 8 {
      size := 8;
    }
    var p := page;
    if p < 0 {
      p := 0;
    }
    var list := Slice(rows, p * size, size);
    var i := 0;
    while i < |list|
      invariant 0 <= i <= |list| && transactions == list[..i]
    {
      transactions := transactions + [list[i]];
      i := i + 1;
    }
    if |list| == size {
      token := Itoa(p + 1);
    }
    return true, transactions, token;
  }

  /** The next page starts where this one ends. */
  lemma SliceExtends(rows: seq<Row>, page: nat, size: nat)
    requires size > 0 && page * size <= |rows|
    ensures var p := Slice(rows, page * size, size);
            && rows[..page * size] + p == rows[..page * size + |p|]
            && |p| <= size
            && (|p| == size ==> (page + 1) * size == page * size + |p| <= |rows|)
            && (|p| < size ==> page * size + |p| == |rows|)
  {
    assert (page + 1) * size == page * size + size;
  }

  /** A client that starts at page 0 and follows tokens until there is none sees every row of the account exactly
      once and in order, in `n / size + 1` requests - one empty page more when the total is a multiple of the size.
      Page numbers must fit the 32 bits they travel in. */
  method Walk(ordered: seq<Row>, accountId: string, pageSize: int) returns (seen: seq<Row>, requests: nat)
    requires accountId != ""
    requires |AccountRows(ordered, accountId)| / EffectiveSize(pageSize) < 0x8000_0000
    ensures seen == AccountRows(ordered, accountId)
    ensures requests == |AccountRows(ordered, accountId)| / EffectiveSize(pageSize) + 1
  {
    hide Itoa, RequestedPage, AccountRows, Slice, ToInt8;
    var rows, size := AccountRows(ordered, accountId), EffectiveSize(pageSize);
    seen, requests := [], 0;
    var token := Itoa(0);
    ghost var page := 0;
    while token != ""
      invariant page * size <= |rows|
      invariant token != "" ==> token == Itoa(page) && requests == page && seen == rows[..page * size]
      invariant token == "" ==> seen == rows && requests == |rows| / size + 1
      decreases token != "", |rows| - page * size
    {
      TokenNamesPage(|rows|, page, size);
      SliceExtends(rows, page, size);
      var ok, transactions, next := ListTransactions(rows, accountId, RequestedPage(token), pageSize);
      seen := seen + transactions;
      requests := requests + 1;
      token := next;
      if next == "" {
        assert |rows| < (page + 1) * size;
        LastPage(|rows|, page, size);
      } else {
        page := page + 1;
      }
    }
  }

  lemma TokenNamesPage(n: nat, page: nat, size: nat)
    requires size > 0 && page * size <= n && n / size < 0x8000_0000
    ensures RequestedPage(Itoa(page)) == page
  {
    QuotientBound(n, page, size);
    TokenRoundTrip(page);
  }

  lemma LastPage(n: nat, page: nat, size: nat)
    requires size > 0 && page * size <= n < (page + 1) * size
    ensures n / size == page
  {
    QuotientBound(n, page, size);
    var q := n / size;
    assert q * size <= n;
    Monotone(page + 1, q, size);
  }

  lemma QuotientBound(n: nat, page: nat, size: nat)
    requires size > 0 && page * size <= n
    ensures page <= n / size
  {
    var q := n / size;
    assert n < (q + 1) * size;
    Monotone(q + 1, page, size);
  }

  lemma Monotone(a: nat, b: nat, size: nat)
    requires size > 0
    ensures a <= b ==> a * size <= b * size
  {
  }
}
