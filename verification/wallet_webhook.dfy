/**
 * The credit webhook: a signed request `chat_id | amount | ts` credits a
 * chat's balance once it passes the presence, freshness and signature
 * checks, in that order.
 *
 * HMAC-SHA256 is an uninterpreted `mac(secret, message)` supplied by the
 * caller; the clock is the parameter `now`. The request body arrives already
 * decoded, its fields already converted by `str()`/`int()`.
 */
module Webhook {
  import opened Common
  import opened Text
  import opened Ledger

  /** The signed message `"{chat_id}|{amount}|{ts}"`. */
  function Message(chat: string, amount: int, ts: int): string
  {
    chat + "|" + IntToString(amount) + "|" + IntToString(ts)
  }

  predicate Ascii(s: string) { forall i :: 0 <= i < |s| ==> s[i] as int < 128 }

  /**
   * `chk_sig_credit`: false without a secret; otherwise whether `sig` is the
   * MAC of the message. `hmac.compare_digest` refuses (raises) a non-ASCII
   * string argument.
   */
  function SigOk(secret: string, mac: (string, string) -> string, chat: string, amount: int, ts: int, sig: string): (r: Raises<bool>)
    ensures secret == [] ==> r == Returns(false)
    ensures r == Returns(true) <==> (secret != [] && Ascii(sig) && Ascii(mac(secret, Message(chat, amount, ts)))
      && sig == mac(secret, Message(chat, amount, ts)))
    ensures r.Raised? ==> secret != [] && !(Ascii(sig) && Ascii(mac(secret, Message(chat, amount, ts))))
    ensures secret != [] && !(Ascii(sig) && Ascii(mac(secret, Message(chat, amount, ts)))) ==> r == Raised("TypeError")
  {
    if secret == [] then Returns(false)
    else
      var want := mac(secret, Message(chat, amount, ts));
      if !Ascii(want) || !Ascii(sig) then Raised("TypeError")
      else Returns(want == sig)
  }

  /** The decoded request body; `None` when it is not JSON at all. */
  datatype CreditRequest = CreditRequest(chat: string, amount: int, ts: int, sig: string)

  /** The `error` field of a refusal. */
  datatype Reason = InvalidJson | Missing | Expired | BadSig

  datatype Answer =
    | Rejected(code: int, error: Reason)
    | ServerError(exception: string) // an uncaught exception: the server answers 500
    | Credited(balance: int)

  const Window: int := 600

  /** Every field is present: a non-blank chat id, a positive amount, a non-zero timestamp, a signature. */
  predicate Present(q: CreditRequest)
  {
    Strip(q.chat) != [] && q.amount > 0 && q.ts != 0 && q.sig != []
  }

  function Abs(x: int): int { if x < 0 then -x else x }

  /**
   * `api_credit`: reject a body that is not JSON (400), a missing field
   * (400), a timestamp more than ten minutes from `now` (400), a bad
   * signature (403); otherwise credit exactly `amount` and answer the new
   * balance.
   */
  function ApiCredit(body: Option<CreditRequest>, now: int, secret: string, mac: (string, string) -> string, l: Accounts): (r: (Answer, Accounts))
    ensures !r.0.Credited? ==> r.1 == l
    ensures body.None? ==> r.0 == Rejected(400, InvalidJson)
    ensures body.Some? && !Present(body.value) ==> r.0 == Rejected(400, Missing)
    ensures body.Some? && Present(body.value) && Abs(now - body.value.ts) > Window ==> r.0 == Rejected(400, Expired)
    ensures body.Some? && Present(body.value) && Abs(now - body.value.ts) <= Window ==>
              var q := body.value; var chat := Strip(q.chat);
              && (SigOk(secret, mac, chat, q.amount, q.ts, q.sig) == Returns(false) ==> r.0 == Rejected(403, BadSig))
              && (SigOk(secret, mac, chat, q.amount, q.ts, q.sig).Raised? ==> r.0.ServerError?)
              && (SigOk(secret, mac, chat, q.amount, q.ts, q.sig) == Returns(true) ==> r.0.Credited?)
    ensures r.0.Credited? ==> (body.Some?
      && var q := body.value; var chat := Strip(q.chat);
      && chat != [] && q.amount > 0 && q.ts != 0 && q.sig != []
      && Abs(now - q.ts) <= Window
      && secret != [] && q.sig == mac(secret, Message(chat, q.amount, q.ts))
      && r.0.balance == Balance(l, chat) + q.amount == Balance(r.1, chat)
      && OthersUnchanged(l, r.1, chat))
  {
    if body.None? then (Rejected(400, InvalidJson), l)
    else
      var q := body.value;
      var chat := Strip(q.chat);
      if chat == [] || q.amount <= 0 || q.ts == 0 || q.sig == [] then (Rejected(400, Missing), l)
      else if Abs(now - q.ts) > Window then (Rejected(400, Expired), l)
      else match SigOk(secret, mac, chat, q.amount, q.ts, q.sig)
        case Raised(e) => (ServerError(e), l)
        case Returns(false) => (Rejected(403, BadSig), l)
        case Returns(true) =>
          CreditAfterEnsure(l, chat, q.amount);
          var c := Credit(EnsureUser(l, chat), chat, q.amount);
          (Credited(c.0), c.1)
  }

  /** Without a secret nothing is ever credited. */
  lemma NoSecretNoCredit(body: Option<CreditRequest>, now: int, mac: (string, string) -> string, l: Accounts)
    ensures !ApiCredit(body, now, [], mac, l).0.Credited?
  {
  }

  /** The freshness window is closed: a timestamp exactly ten minutes off is still accepted. */
  lemma WindowEdgeAccepted(q: CreditRequest, secret: string, mac: (string, string) -> string, l: Accounts)
    requires Strip(q.chat) != [] && q.amount > 0 && q.ts != 0 && q.sig != []
    requires secret != [] && Ascii(q.sig) && q.sig == mac(secret, Message(Strip(q.chat), q.amount, q.ts))
    ensures ApiCredit(Some(q), q.ts + Window, secret, mac, l).0.Credited?
    ensures ApiCredit(Some(q), q.ts + Window + 1, secret, mac, l).0 == Rejected(400, Expired)
  {
  }

  /** A signature is looked at only once presence and freshness hold. */
  lemma BadSigAfterOtherChecks(body: Option<CreditRequest>, now: int, secret: string, mac: (string, string) -> string, l: Accounts)
    requires ApiCredit(body, now, secret, mac, l).0 == Rejected(403, BadSig)
    ensures body.Some? && Strip(body.value.chat) != [] && body.value.amount > 0
    ensures Abs(now - body.value.ts) <= Window
  {
  }

  /** There is no nonce: replaying an accepted request within the window credits the amount again. */
  lemma ReplayCreditsAgain(q: CreditRequest, now: int, secret: string, mac: (string, string) -> string, l: Accounts)
    requires Strip(q.chat) != [] && q.amount > 0 && q.ts != 0 && q.sig != [] && Abs(now - q.ts) <= Window
    requires secret != [] && Ascii(q.sig) && q.sig == mac(secret, Message(Strip(q.chat), q.amount, q.ts))
    ensures var r1 := ApiCredit(Some(q), now, secret, mac, l);
      var r2 := ApiCredit(Some(q), now, secret, mac, r1.1);
      r1.0.Credited? && r2.0.Credited? && Balance(r2.1, Strip(q.chat)) == Balance(l, Strip(q.chat)) + 2 * q.amount
  {
  }

  // ===========================================================================
  // The signed message determines the request

  /** The position of the last `|` in `m`, or -1. */
  function LastBar(m: string): (p: int)
    ensures -1 <= p < |m|
  {
    if m == [] then -1
    else if m[|m| - 1] == '|' then |m| - 1
    else LastBar(m[..|m| - 1])
  }

  /** The last `|` of `x + "|" + u` is the one after `x` when `u` has none. */
  lemma {:induction false} LastBarAfter(x: string, u: string)
    requires FreeOf(u, Exactly('|'))
    ensures LastBar(x + "|" + u) == |x|
  {
    var m := x + "|" + u;
    if u != [] {
      var u' := u[..|u| - 1];
      assert m[..|m| - 1] == x + "|" + u';
      assert m[|m| - 1] == u[|u| - 1];
      LastBarAfter(x, u');
    }
  }

  /** Splitting at the last `|`: the tail after it and the head before it are unique. */
  lemma LastBarSplit(x: string, u: string, y: string, v: string)
    requires FreeOf(u, Exactly('|')) && FreeOf(v, Exactly('|'))
    requires x + "|" + u == y + "|" + v
    ensures x == y && u == v
  {
    var m := x + "|" + u;
    LastBarAfter(x, u);
    LastBarAfter(y, v);
    assert x == m[..|x|];
    assert y == m[..|y|];
    assert u == m[|x| + 1..];
    assert v == m[|y| + 1..];
  }

  lemma IntToStringHasNoBar(i: int)
    ensures FreeOf(IntToString(i), Exactly('|'))
  {
    var t := IntToString(i);
    forall k | 0 <= k < |t| ensures t[k] != '|' {
      if i < 0 {
        assert t[k] == '-' || t[k] == NatToString(-i)[k - 1];
      }
    }
  }

  lemma IntToStringInjective(a: int, b: int)
    requires IntToString(a) == IntToString(b)
    ensures a == b
  {
    IntRoundTrip(a);
    IntRoundTrip(b);
  }

  /**
   * Different requests sign different messages: a chat id containing `|`
   * cannot pass for another chat, amount or timestamp.
   */
  lemma MessageInjective(c1: string, a1: int, t1: int, c2: string, a2: int, t2: int)
    requires Message(c1, a1, t1) == Message(c2, a2, t2)
    ensures c1 == c2 && a1 == a2 && t1 == t2
  {
    IntToStringHasNoBar(a1);
    IntToStringHasNoBar(a2);
    IntToStringHasNoBar(t1);
    IntToStringHasNoBar(t2);
    LastBarSplit(c1 + "|" + IntToString(a1), IntToString(t1), c2 + "|" + IntToString(a2), IntToString(t2));
    LastBarSplit(c1, IntToString(a1), c2, IntToString(a2));
    IntToStringInjective(a1, a2);
    IntToStringInjective(t1, t2);
  }
}
