// The paging at the end of Query in
// server/internal/output/filesystem/filesystem.go, and the console's walk over
// pages.
module Paging {
  import opened Batching

  const DEFAULT_LIMIT: nat := 100

  datatype Page<+T> = Page(total: nat, items: seq<T>, hasMore: bool)

  function Effective(limit: int): nat {
    if limit <= 0 then DEFAULT_LIMIT else limit
  }

  // The page of a sorted result.
  function Paged<T>(all: seq<T>, offset: int, limit: int): Page<T> {
    var n := Effective(limit);
    var rest := if 0 < offset < |all| then all[offset..] else if offset >= |all| then [] else all;
    Page(|all|, if |rest| > n then rest[..n] else rest, |rest| > n)
  }

  function Min(a: int, b: int): int {
    if a < b then a else b
  }

  // A page is the slice of at most the limit from the offset; an offset past
  // the end gives none, a negative one counts as 0.
  lemma PageIsSlice<T>(all: seq<T>, offset: int, limit: int)
    ensures var from := Min(if offset < 0 then 0 else offset, |all|);
            var n := if limit <= 0 then 100 else limit;
            Paged(all, offset, limit).items == all[from..Min(from + n, |all|)]
  {
  }

  // HasMore agrees with the formula of the SQL outputs, offset + items <
  // total, exactly when the offset is not negative or a full page is followed
  // by more.
  lemma HasMoreFormula<T>(all: seq<T>, offset: int, limit: int)
    ensures var p := Paged(all, offset, limit);
            (p.hasMore <==> offset + |p.items| < p.total) <==> (offset >= 0 || |all| > Effective(limit))
  {
  }

  // The pages seen by advancing by the limit as long as HasMore holds.
  function Walk<T>(all: seq<T>, offset: nat, limit: int): seq<seq<T>>
    decreases |all| - offset
  {
    var p := Paged(all, offset, limit);
    [p.items] + if p.hasMore then Walk(all, offset + Effective(limit), limit) else []
  }

  // The pages it takes to show k items, n on a page: at least one.
  function PageCount(k: nat, n: nat): nat
    requires n > 0
  {
    if k <= n then 1 else 1 + PageCount(k - n, n)
  }

  lemma {:induction false} PageCountIs(k: nat, n: nat)
    requires n > 0
    ensures PageCount(k, n) == if k == 0 then 1 else CeilDiv(k, n)
    decreases k
  {
    if k > n {
      PageCountIs(k - n, n);
      CeilDivStep(k, n);
    } else if k > 0 {
      DivUnique(k + n - 1, n, 1, k - 1);
    }
  }

  // The walk sees every item once, in order, in the least number of pages, of
  // which there is always one.
  lemma {:induction false} WalkFrom<T>(all: seq<T>, offset: nat, limit: int)
    requires offset <= |all|
    ensures Flatten(Walk(all, offset, limit)) == all[offset..]
    ensures |Walk(all, offset, limit)| == PageCount(|all| - offset, Effective(limit))
    decreases |all| - offset
  {
    if Paged(all, offset, limit).hasMore {
      WalkFrom(all, offset + Effective(limit), limit);
      NextPage(all, offset, limit);
    } else {
      LastPage(all, offset, limit);
    }
  }

  lemma NextPage<T>(all: seq<T>, offset: nat, limit: int)
    requires offset <= |all| && Paged(all, offset, limit).hasMore
    ensures var n := Effective(limit);
            var more := Walk(all, offset + n, limit);
            && offset + n < |all|
            && |Walk(all, offset, limit)| == 1 + |more|
            && Flatten(Walk(all, offset, limit)) == all[offset..offset + n] + Flatten(more)
            && all[offset..] == all[offset..offset + n] + all[offset + n..]
  {
    PageIsSlice(all, offset, limit);
    assert Walk(all, offset, limit)[1..] == Walk(all, offset + Effective(limit), limit);
  }

  lemma LastPage<T>(all: seq<T>, offset: nat, limit: int)
    requires offset <= |all| && !Paged(all, offset, limit).hasMore
    ensures Flatten(Walk(all, offset, limit)) == all[offset..] && |Walk(all, offset, limit)| == 1
    ensures |all| - offset <= Effective(limit)
  {
    var p := Paged(all, offset, limit);
    PageIsSlice(all, offset, limit);
    assert Walk(all, offset, limit) == [p.items];
    assert Flatten([p.items]) == p.items + Flatten([]) == p.items;
    assert p.items == all[offset..];
  }

  lemma WalkSeesAll<T>(all: seq<T>, limit: int)
    ensures Flatten(Walk(all, 0, limit)) == all
    ensures var pages := CeilDiv(|all|, Effective(limit));
            |Walk(all, 0, limit)| == if pages == 0 then 1 else pages
  {
    var n := Effective(limit);
    WalkFrom(all, 0, limit);
    PageCountIs(|all|, n);
    assert all[0..] == all;
    if |all| == 0 {
      DivUnique(n - 1, n, 0, n - 1);
    }
  }
}
