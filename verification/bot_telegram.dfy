/**
 * The pay-per-check Telegram bot: its handle normalizer, the one-request
 * verdict `classify`, the daily free-use gate, the pricing of `/check` and
 * the validation of `/setprice`.
 *
 * The bot's mutable globals become an immutable `Bot` state passed in and
 * handed back; the request for a profile page is a function `fetch` from URL
 * to reply; the UTC date key is the parameter `day`.
 */
module TelegramBot {
  import opened Common
  import opened Text
  import opened Ledger

  // ===========================================================================
  // Handle normalization

  /** Strip, drop one leading '@', keep only `[A-Za-z0-9_.]`. */
  function Normalize(u: string): (r: string)
    ensures IsHandle(r)
  {
    var s := Strip(u);
    Filter(if s != [] && s[0] == '@' then s[1..] else s)
  }

  /** The strip and the '@' cut are subsumed by the filter. */
  lemma NormalizeIsFilter(u: string)
    ensures Normalize(u) == Filter(u)
  {
    var s := Strip(u);
    FilterStrip(u);
    if s != [] && s[0] == '@' {
      assert Filter(s) == Filter(s[1..]);
    }
  }

  lemma NormalizeIdempotent(u: string)
    ensures Normalize(Normalize(u)) == Normalize(u)
  {
    NormalizeIsFilter(u);
    NormalizeIsFilter(Normalize(u));
    FilterIdempotent(u);
  }

  // ===========================================================================
  // The one-request verdict

  /** The two ways a profile page names its own handle. */
  function LiveMarkers(name: string): seq<string>
  {
    ["/\"@" + name + "\"", "\"uniqueId\":\"" + name + "\""]
  }

  /**
   * `classify`: live when the page came back 200 and names the handle,
   * banned on 404 or 451, error otherwise.
   */
  function Classify(name: string, status: int, text: string): (s: Status)
    ensures s == Live <==> status == 200 && ContainsAny(text, LiveMarkers(name))
    ensures s == Banned <==> status == 404 || status == 451
    ensures s == Error <==> !(status == 200 && ContainsAny(text, LiveMarkers(name))) && status != 404 && status != 451
  {
    if status == 200 && ContainsAny(text, LiveMarkers(name)) then Live
    else if status == 404 || status == 451 then Banned
    else Error
  }

  /** A missing or unavailable page is banned whatever its body says. */
  lemma GoneIgnoresBody(name: string, status: int, t1: string, t2: string)
    requires status == 404 || status == 451
    ensures Classify(name, status, t1) == Classify(name, status, t2) == Banned
  {
  }

  /** A 200 page naming the handle as `"uniqueId":"name"` is live. */
  lemma UniqueIdMeansLive(name: string, text: string, i: nat)
    requires OccursAt(text, "\"uniqueId\":\"" + name + "\"", i)
    ensures Classify(name, 200, text) == Live
  {
    ContainsWitness(text, LiveMarkers(name)[1], i);
  }

  const Endpoint: string := "https://www.tiktok.com/@"

  /** `quick_check`: classify the reply to the profile URL; a request failure is an error. */
  function QuickCheck(name: string, fetch: string -> Reply): (r: Raises<Status>)
    ensures fetch(Endpoint + name).Crashed? <==> r.Raised?
    ensures fetch(Endpoint + name).RequestFailed? ==> r == Returns(Error)
    ensures r == Returns(Live) ==> fetch(Endpoint + name).Response? && fetch(Endpoint + name).code == 200
    ensures fetch(Endpoint + name).Response? ==>
              r == Returns(Classify(name, fetch(Endpoint + name).code, fetch(Endpoint + name).body))
  {
    match fetch(Endpoint + name)
    case Response(code, body) => Returns(Classify(name, code, body))
    case RequestFailed => Returns(Error)
    case Crashed(e) => Raised(e)
  }

  // ===========================================================================
  // The daily free-use counter

  /** Uses per (UTC day, chat). */
  type Uses = map<(string, string), int>

  function UsesOf(m: Uses, day: string, chat: string): (n: int)
    ensures (day, chat) !in m ==> n == 0
  {
    if (day, chat) in m then m[(day, chat)] else 0
  }

  /** `inc_use`: one more use today for this chat; returns the new count. */
  function IncUse(m: Uses, day: string, chat: string): (r: (int, Uses))
    ensures r.0 == UsesOf(m, day, chat) + 1 == UsesOf(r.1, day, chat)
    ensures forall d, c :: (d, c) != (day, chat) ==> UsesOf(r.1, d, c) == UsesOf(m, d, c)
  {
    var n := UsesOf(m, day, chat) + 1;
    (n, m[(day, chat) := n])
  }

  /** `remaining`: free uses left today, never negative. */
  function Remaining(free: int, m: Uses, day: string, chat: string): (n: int)
    ensures n >= 0
    ensures UsesOf(m, day, chat) <= free ==> n + UsesOf(m, day, chat) == free
    ensures UsesOf(m, day, chat) >= free ==> n == 0
  {
    var k := free - UsesOf(m, day, chat);
    if k > 0 then k else 0
  }

  /**
   * `_gate_or_count`: refuse once today's uses reach the limit, leaving the
   * counter alone; otherwise count one use and let the command through.
   */
  function Gate(free: int, m: Uses, day: string, chat: string): (r: (bool, Uses))
    ensures r.0 <==> UsesOf(m, day, chat) < free
    ensures !r.0 ==> r.1 == m
    ensures r.0 ==> r.1 == IncUse(m, day, chat).1
  {
    if UsesOf(m, day, chat) >= free then (false, m)
    else (true, IncUse(m, day, chat).1)
  }

  /** The gate lets a command through exactly when free uses remain. */
  lemma GateMatchesRemaining(free: int, m: Uses, day: string, chat: string)
    ensures Gate(free, m, day, chat).0 <==> Remaining(free, m, day, chat) > 0
  {
  }

  /** `n` successive commands from one chat on one day: how many pass, and the final counter. */
  function GateRun(free: int, m: Uses, day: string, chat: string, n: nat): (r: (nat, Uses))
    ensures r.0 <= n
    decreases n
  {
    if n == 0 then (0, m)
    else
      var g := Gate(free, m, day, chat);
      var rest := GateRun(free, g.1, day, chat, n - 1);
      (rest.0 + (if g.0 then 1 else 0), rest.1)
  }

  function Min(a: int, b: int): int { if a < b then a else b }

  /** Exactly as many commands pass as there were free uses left, and no more. */
  lemma {:induction false} GateRunPasses(free: int, m: Uses, day: string, chat: string, n: nat)
    ensures GateRun(free, m, day, chat, n).0 == Min(n, Remaining(free, m, day, chat))
    decreases n
  {
    if n > 0 {
      var g := Gate(free, m, day, chat);
      GateRunPasses(free, g.1, day, chat, n - 1);
    }
  }

  // ===========================================================================
  // The bot's state and `/check`

  /** The pricing mode; anything but the two known names charges nothing. */
  datatype Mode = PerCheck | PerLive | Unpriced(name: string)

  /** The mode a (lower-cased) name stands for. */
  function ModeOf(s: string): (m: Mode)
    ensures m == PerCheck <==> s == "per_check"
    ensures m == PerLive <==> s == "per_live"
    ensures m.Unpriced? ==> m.name == s
  {
    if s == "per_check" then PerCheck else if s == "per_live" then PerLive else Unpriced(s)
  }

  datatype Bot = Bot(ledger: Accounts, uses: Uses, price: int, mode: Mode)

  /** What `/check` answers. */
  datatype CheckReply =
    | Ignored                            // chat not on the allow-list: no answer at all
    | Syntax                             // no arguments
    | BadName                            // nothing left after normalization
    | LimitReached                       // today's free uses are spent
    | Insufficient(cost: int, balance: int)
    | ChargeFailed
    | Verdict(status: Status, name: string, balance: int)
    | Escaped(exception: string)         // the probe raised; the handler ends with it

  /** The handle `/check` probes: its arguments joined by spaces, normalized. */
  function HandleOf(args: seq<string>): (name: string)
    ensures IsHandle(name)
  {
    Normalize(Join(args, ' '))
  }

  /** The ledger as the allow-listed command leaves it before any charge. */
  function Opened(allowed: bool, l: Accounts, chat: string): Accounts
  {
    if allowed then EnsureUser(l, chat) else l
  }

  /**
   * Everything up to the probe: allow-list, account, arguments, gate and the
   * per_check charge. `None` means "go on and probe".
   */
  function Prepare(allowed: bool, chat: string, args: seq<string>, day: string, free: int, st: Bot): (r: (Option<CheckReply>, Bot))
    ensures r.1.price == st.price && r.1.mode == st.mode
    ensures r.0 == Some(Ignored) <==> !allowed
    ensures !allowed ==> r.1 == st
    ensures r.0 != Some(ChargeFailed)
    ensures r.0.None? ==> allowed && args != [] && HandleOf(args) != []
    ensures r.0.None? || r.0.value.Insufficient? <==> allowed && args != [] && HandleOf(args) != [] && UsesOf(st.uses, day, chat) < free
    ensures r.0.None? || r.0.value.Insufficient? ==> r.1.uses == IncUse(st.uses, day, chat).1
    ensures !(r.0.None? || r.0.value.Insufficient?) ==> r.1.uses == st.uses
    ensures r.0.None? && st.mode == PerCheck ==> (CanAfford(Opened(allowed, st.ledger, chat), chat, st.price)
      && r.1.ledger == Charge(Opened(allowed, st.ledger, chat), chat, st.price, 1).1)
    ensures r.0.None? && st.mode != PerCheck ==> r.1.ledger == Opened(allowed, st.ledger, chat)
    ensures r.0.Some? ==> r.1.ledger == Opened(allowed, st.ledger, chat)
    ensures r.0.Some? && r.0.value.Insufficient? ==> st.mode == PerCheck && !CanAfford(Opened(allowed, st.ledger, chat), chat, st.price)
  {
    if !allowed then (Some(Ignored), st)
    else
      var st1 := st.(ledger := EnsureUser(st.ledger, chat));
      if args == [] then (Some(Syntax), st1)
      else if HandleOf(args) == [] then (Some(BadName), st1)
      else
        var g := Gate(free, st1.uses, day, chat);
        if !g.0 then (Some(LimitReached), st1)
        else
          var st2 := st1.(uses := g.1);
          if st.mode != PerCheck then (None, st2)
          else if !CanAfford(st2.ledger, chat, st.price) then (Some(Insufficient(st.price, Balance(st2.ledger, chat))), st2)
          else
            var c := Charge(st2.ledger, chat, st.price, 1);
            if !c.0 then (Some(ChargeFailed), st2) else (None, st2.(ledger := c.1))
  }

  /** After the probe: the per_live charge of a live verdict (its refusal is ignored). */
  function AfterProbe(chat: string, price: int, mode: Mode, l: Accounts, s: Status): (l2: Accounts)
    ensures mode == PerLive && s == Live ==> l2 == Charge(l, chat, price, 1).1
    ensures !(mode == PerLive && s == Live) ==> l2 == l
  {
    if mode == PerLive && s == Live then Charge(l, chat, price, 1).1 else l
  }

  /**
   * `/check`: after `Prepare`, probe the normalized handle; in per_live mode
   * charge the price when the verdict is live; answer the verdict and the
   * balance.
   */
  function CmdCheck(allowed: bool, chat: string, args: seq<string>, day: string, free: int, st: Bot, fetch: string -> Reply): (r: (CheckReply, Bot))
    ensures r.1.price == st.price && r.1.mode == st.mode
    ensures r.0 == Ignored <==> !allowed
    ensures r.0 == Ignored ==> r.1 == st
    ensures r.0.Verdict? ==> r.0.name == HandleOf(args) && r.0.balance == Balance(r.1.ledger, chat)
    ensures r.0.Verdict? ==> QuickCheck(HandleOf(args), fetch) == Returns(r.0.status)
    ensures var p := Prepare(allowed, chat, args, day, free, st);
            p.0.Some? ==> r == (p.0.value, p.1)
    ensures var p := Prepare(allowed, chat, args, day, free, st);
            var q := QuickCheck(HandleOf(args), fetch);
            p.0.None? ==> (q.Returns? <==> r.0.Verdict?) && (q.Raised? ==> r == (Escaped(q.exception), p.1))
    ensures r.0 != ChargeFailed
  {
    var p := Prepare(allowed, chat, args, day, free, st);
    if p.0.Some? then (p.0.value, p.1)
    else
      var name := HandleOf(args);
      match QuickCheck(name, fetch)
      case Raised(e) => (Escaped(e), p.1)
      case Returns(s) =>
        var l := AfterProbe(chat, st.price, st.mode, p.1.ledger, s);
        (Verdict(s, name, Balance(l, chat)), p.1.(ledger := l))
  }

  /** A command that got past the gate. */
  predicate PassedGate(r: CheckReply)
  {
    r.Insufficient? || r.ChargeFailed? || r.Verdict? || r.Escaped?
  }

  /** A command that got past the gate used up exactly one of today's free uses; any other used none. */
  lemma GateCountsOnce(allowed: bool, chat: string, args: seq<string>, day: string, free: int, st: Bot, fetch: string -> Reply)
    ensures var r := CmdCheck(allowed, chat, args, day, free, st, fetch);
      (PassedGate(r.0) ==> UsesOf(r.1.uses, day, chat) == UsesOf(st.uses, day, chat) + 1)
      && (!PassedGate(r.0) ==> r.1.uses == st.uses)
  {
    var p := Prepare(allowed, chat, args, day, free, st);
    assert p.0.None? || p.0.value.Insufficient? <==> PassedGate(CmdCheck(allowed, chat, args, day, free, st, fetch).0);
  }

  /**
   * In per_check mode a verdict costs exactly the price, charged before the
   * probe; a chat that cannot pay gets no probe, and its free use is spent
   * all the same.
   */
  lemma PerCheckPricing(chat: string, args: seq<string>, day: string, free: int, st: Bot, fetch: string -> Reply)
    requires st.mode == PerCheck
    ensures var r := CmdCheck(true, chat, args, day, free, st, fetch);
      (r.0.Verdict? ==> (Balance(r.1.ledger, chat) == Balance(st.ledger, chat) - st.price
         && Spent(r.1.ledger, chat) == Spent(st.ledger, chat) + st.price))
      && (r.0.Insufficient? ==> (Balance(r.1.ledger, chat) == Balance(st.ledger, chat) < st.price
         && r.0 == CmdCheck(true, chat, args, day, free, st, (u: string) => RequestFailed).0))
  {
  }

  /**
   * In per_live mode only a live verdict is charged, and only when the chat
   * can pay; an unpaid live verdict is answered all the same.
   */
  lemma PerLivePricing(chat: string, args: seq<string>, day: string, free: int, st: Bot, fetch: string -> Reply)
    requires st.mode == PerLive
    ensures var r := CmdCheck(true, chat, args, day, free, st, fetch);
      r.0.Verdict? ==>
        if r.0.status == Live && CanAfford(st.ledger, chat, st.price)
        then Balance(r.1.ledger, chat) == Balance(st.ledger, chat) - st.price
        else Balance(r.1.ledger, chat) == Balance(st.ledger, chat) && Spent(r.1.ledger, chat) == Spent(st.ledger, chat)
  {
  }

  /** Under any other mode `/check` is free. */
  lemma UnpricedIsFree(allowed: bool, chat: string, args: seq<string>, day: string, free: int, st: Bot, fetch: string -> Reply)
    requires st.mode.Unpriced?
    ensures CmdCheck(allowed, chat, args, day, free, st, fetch).1.ledger == Opened(allowed, st.ledger, chat)
  {
  }

  /** Every other chat's account is left alone. */
  lemma CheckTouchesOnlyItsChat(allowed: bool, chat: string, args: seq<string>, day: string, free: int, st: Bot, fetch: string -> Reply)
    ensures OthersUnchanged(st.ledger, CmdCheck(allowed, chat, args, day, free, st, fetch).1.ledger, chat)
  {
  }

  // ===========================================================================
  // `/setprice`

  datatype SetPriceReply = NotAdmin | Usage | PriceSet(price: int, mode: Mode)

  /**
   * `/setprice <amount> [mode]`: an integer amount and a mode (lower-cased,
   * defaulting to the current one) that is per_check or per_live replace the
   * price and mode together; anything else leaves both as they were.
   */
  function CmdSetPrice(admin: bool, args: seq<string>, st: Bot): (r: (SetPriceReply, Bot))
    ensures r.1.ledger == st.ledger && r.1.uses == st.uses
    ensures !r.0.PriceSet? ==> r.1 == st
    ensures r.0.PriceSet? <==> (admin && args != [] && ParseInt(args[0]).Some?
      && !(if |args| > 1 then ModeOf(Lower(args[1])) else st.mode).Unpriced?)
    ensures r.0.PriceSet? ==> r.1.price == ParseInt(args[0]).value && r.1.mode == r.0.mode && !r.1.mode.Unpriced?
    ensures r.0.PriceSet? ==> r.0 == PriceSet(ParseInt(args[0]).value, if |args| > 1 then ModeOf(Lower(args[1])) else st.mode)
  {
    if !admin then (NotAdmin, st)
    else if args == [] then (Usage, st)
    else match ParseInt(args[0])
      case None => (Usage, st)
      case Some(amount) =>
        var mode := if |args| > 1 then ModeOf(Lower(args[1])) else st.mode;
        if mode.Unpriced? then (Usage, st)
        else (PriceSet(amount, mode), st.(price := amount, mode := mode))
  }

  /** A known pricing mode stays known through any `/setprice`. */
  lemma SetPriceKeepsModeKnown(admin: bool, args: seq<string>, st: Bot)
    requires !st.mode.Unpriced?
    ensures !CmdSetPrice(admin, args, st).1.mode.Unpriced?
  {
  }
}
