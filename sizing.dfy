/**
  Run sizing: the settings the harvester reads with their defaults, the check
  that `max_resources` is a multiple of `jsonapi_page_size`, the number of
  collection pages a run requests, and the adjustment made after the probe.
 */
module Sizing {
  import opened HarvestTypes

  /** The settings that steer the harvest; `None` is a key that is not set. */
  datatype Settings = Settings(
    pageSize: Option<int>,
    maxResources: Option<int>,
    useFedoraUrls: Option<bool>)

  /** The settings after defaulting. */
  datatype Config = Config(pageSize: int, maxResources: int, useFedoraUrls: bool)

  /** The largest page Drupal's JSON:API serves. */
  const DefaultPageSize: int := 50

  function ResolveConfig(s: Settings): (c: Config)
    ensures s.pageSize.Some? ==> c.pageSize == s.pageSize.value
    ensures s.pageSize.None? ==> c.pageSize == DefaultPageSize
    ensures s.maxResources.Some? ==> c.maxResources == s.maxResources.value
    ensures s.maxResources.None? ==> c.maxResources == c.pageSize
    ensures c.useFedoraUrls <==> s.useFedoraUrls != Some(false)
  {
    var pageSize := if s.pageSize.Some? then s.pageSize.value else DefaultPageSize;
    Config(
      pageSize,
      if s.maxResources.Some? then s.maxResources.value else pageSize,
      if s.useFedoraUrls.Some? then s.useFedoraUrls.value else true)
  }

  function Abs(x: int): nat { if x < 0 then -x else x }

  /** PHP's integer `%`: the remainder of the division truncated toward zero,
      which takes the sign of the dividend (Dafny's `%` is Euclidean). */
  function PhpRem(a: int, b: int): (r: int)
    requires b != 0
    ensures Abs(r) < Abs(b)
    ensures a >= 0 ==> r >= 0
    ensures a < 0 ==> r <= 0
  {
    var m := Abs(a) % Abs(b);
    if a < 0 then -m else m
  }

  lemma AbsMul(m: int, e: int)
    ensures Abs(m * e) == Abs(m) * Abs(e)
  {
  }

  lemma MulGrows(m: nat, e: nat)
    requires e >= 1
    ensures m * e >= m
  {
  }

  /** A multiple of `m` divides back to its factor with no remainder. */
  lemma MultipleDivides(q: int, m: int)
    requires m != 0
    ensures (q * m) % m == 0 && (q * m) / m == q
  {
    var d, r := (q * m) / m, (q * m) % m;
    assert q * m == m * d + r;
    assert m * (q - d) == r by { assert m * (q - d) == m * q - m * d; }
    if q - d != 0 {
      AbsMul(m, q - d);
      MulGrows(Abs(m), Abs(q - d));
      assert false;
    }
  }

  /** PHP's remainder is zero exactly when Dafny's is: both say "is a multiple". */
  lemma PhpRemZeroIffMultiple(a: int, b: int)
    requires b != 0
    ensures PhpRem(a, b) == 0 <==> a % b == 0
  {
    if a % b == 0 {
      var q := a / b;
      assert a == q * b;
      AbsMul(q, b);
      MultipleDivides(Abs(q), Abs(b));
    }
    if Abs(a) % Abs(b) == 0 {
      var q := Abs(a) / Abs(b);
      assert Abs(a) == q * Abs(b);
      var s := if (a < 0) == (b < 0) then q else -q;
      assert a == s * b;
      MultipleDivides(s, b);
    }
  }

  /** Pages per run before the probe: `None` is the configuration error raised
      when `max_resources` is not a multiple of the page size; otherwise the
      quotient when it is at least 1, and 1 when it is not. */
  function PagesPerRun(pageSize: int, maxResources: int): (n: Option<nat>)
    requires pageSize != 0
    ensures n.None? <==> maxResources % pageSize != 0
    ensures n.Some? ==> n.value >= 1
  {
    PhpRemZeroIffMultiple(maxResources, pageSize);
    if PhpRem(maxResources, pageSize) != 0 then None
    else if maxResources / pageSize >= 1 then Some(maxResources / pageSize)
    else Some(1)
  }

  /** A valid sizing of at least one page is exact: the run's pages hold
      `max_resources` records. */
  lemma PagesCoverMaxResources(pageSize: int, maxResources: int)
    requires pageSize != 0 && maxResources % pageSize == 0 && maxResources / pageSize >= 1
    ensures PagesPerRun(pageSize, maxResources).value * pageSize == maxResources
  {
    assert maxResources == pageSize * (maxResources / pageSize) + maxResources % pageSize;
  }

  /** A `max_resources` of k whole pages gives k pages per run. */
  lemma WholePagesPerRun(pageSize: int, k: int)
    requires pageSize > 0 && k >= 1
    ensures PagesPerRun(pageSize, k * pageSize) == Some(k)
  {
    MultipleDivides(k, pageSize);
  }

  /** A multiple of the page size below one page (zero or negative) still
      gives one page per run. */
  lemma NonPositiveMaxGivesOnePage(pageSize: int, maxResources: int)
    requires pageSize > 0 && maxResources <= 0 && maxResources % pageSize == 0
    ensures PagesPerRun(pageSize, maxResources) == Some(1)
  {
  }

  /** With `max_resources` left unset the configuration is always valid and a
      run requests a single page. */
  lemma DefaultMaxIsOnePage(s: Settings)
    requires s.maxResources.None? && ResolveConfig(s).pageSize != 0
    ensures PagesPerRun(ResolveConfig(s).pageSize, ResolveConfig(s).maxResources) == Some(1)
  {
    MultipleDivides(1, ResolveConfig(s).pageSize);
  }

  /** The page count after the probe: a probe whose links carry neither `next`
      nor `prev` shows the collection fits one page. */
  function ProbedPages(n: nat, probeLinks: Links): (m: nat)
    ensures probeLinks.next.None? && probeLinks.prev.None? ==> m == 1
    ensures probeLinks.next.Some? || probeLinks.prev.Some? ==> m == n
  {
    if probeLinks.next.None? && probeLinks.prev.None? then 1 else n
  }
}
