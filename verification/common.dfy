/**
 * Shared vocabulary of the checker: the three verdicts a handle can receive,
 * the bucketed batch result, and a small Option type.
 */
module Common {

  datatype Option<T> = None | Some(value: T)

  /** A Python call that either returns a value or raises an uncaught exception. */
  datatype Raises<T> = Returns(value: T) | Raised(exception: string)

  /** What an HTTP GET gives back. */
  datatype Reply =
    | Response(code: int, body: string)
    | RequestFailed              // a `requests.RequestException`
    | Crashed(exception: string) // any other exception, which the caller does not catch

  /** The terminal verdict for one handle. checker.py spells `Banned` as "die". */
  datatype Status = Live | Banned | Error

  /** The batch result: exactly the three buckets live / banned / error. */
  datatype Buckets = Buckets(live: seq<string>, banned: seq<string>, error: seq<string>)
  {
    function Get(s: Status): seq<string>
    {
      match s
      case Live => live
      case Banned => banned
      case Error => error
    }

    /** Append `x` to the bucket of `s`; the two other buckets are untouched. */
    function Add(s: Status, x: string): (b: Buckets)
      ensures b.Get(s) == Get(s) + [x]
      ensures forall t :: t != s ==> b.Get(t) == Get(t)
      ensures b.All() == All() + multiset{x}
    {
      match s
      case Live => this.(live := live + [x])
      case Banned => this.(banned := banned + [x])
      case Error => this.(error := error + [x])
    }

    function All(): multiset<string>
    {
      multiset(live) + multiset(banned) + multiset(error)
    }
  }

  const NoBuckets := Buckets([], [], [])

  /** The items of `xs` whose verdict in `vs` is `s`, in order. */
  function Pick(xs: seq<string>, vs: seq<Status>, s: Status): (r: seq<string>)
    requires |xs| == |vs|
    ensures |r| <= |xs|
  {
    if xs == [] then []
    else Pick(xs[..|xs| - 1], vs[..|vs| - 1], s)
         + (if vs[|vs| - 1] == s then [xs[|xs| - 1]] else [])
  }

  /**
   * Folding verdicts into buckets, in order: every item lands in exactly one
   * bucket, so the buckets together hold exactly the items.
   */
  function Collect(xs: seq<string>, vs: seq<Status>): (b: Buckets)
    requires |xs| == |vs|
    ensures b.All() == multiset(xs)
  {
    if xs == [] then NoBuckets
    else
      var n := |xs| - 1;
      assert xs == xs[..n] + [xs[n]];
      Collect(xs[..n], vs[..n]).Add(vs[n], xs[n])
  }

  /** Each bucket holds exactly the items whose verdict is that bucket's status, in order. */
  lemma {:induction false} CollectPicks(xs: seq<string>, vs: seq<Status>, s: Status)
    requires |xs| == |vs|
    ensures Collect(xs, vs).Get(s) == Pick(xs, vs, s)
  {
    if xs != [] {
      var n := |xs| - 1;
      CollectPicks(xs[..n], vs[..n], s);
    }
  }

  /** The i-th item is in the bucket of the i-th verdict. */
  lemma {:induction false} PickHasItem(xs: seq<string>, vs: seq<Status>, i: nat)
    requires |xs| == |vs| && i < |xs|
    ensures xs[i] in Pick(xs, vs, vs[i])
  {
    var n := |xs| - 1;
    if i < n {
      PickHasItem(xs[..n], vs[..n], i);
    }
  }

  /**
   * The worker-pool size both batch checkers use: the requested thread count
   * clamped to 1..5.
   */
  function PoolSize(threads: int): (n: int)
    ensures 1 <= n <= 5
    ensures 1 <= threads <= 5 ==> n == threads
    ensures threads > 5 ==> n == 5
    ensures threads < 1 ==> n == 1
  {
    if threads < 1 then 1 else if threads > 5 then 5 else threads
  }
}
