/**
 * The prepaid ledger: one account per chat with a balance, a count of paid
 * checks and the total spent. File persistence and locking are replaced by an
 * immutable map passed in and handed back.
 */
module Ledger {

  datatype Account = Account(balance: int, checks: int, spent: int)

  const Fresh: Account := Account(0, 0, 0)

  type Accounts = map<string, Account>

  /** Every chat other than `chat` is exactly as before (present or absent alike). */
  ghost predicate OthersUnchanged(l: Accounts, l2: Accounts, chat: string)
  {
    forall c :: c != chat ==> (c in l <==> c in l2) && (c in l ==> l[c] == l2[c])
  }

  /** `ensure_user`: open an empty account for a chat that has none. */
  function EnsureUser(l: Accounts, chat: string): (l2: Accounts)
    ensures chat in l2
    ensures chat in l ==> l2 == l
    ensures chat !in l ==> l2[chat] == Fresh
    ensures OthersUnchanged(l, l2, chat)
  {
    if chat in l then l else l[chat := Fresh]
  }

  /** `get_balance`: 0 for a chat without an account. */
  function Balance(l: Accounts, chat: string): (b: int)
    ensures chat !in l ==> b == 0
    ensures chat in l ==> b == l[chat].balance
  {
    if chat in l then l[chat].balance else 0
  }

  function Spent(l: Accounts, chat: string): int
  {
    if chat in l then l[chat].spent else 0
  }

  function Checks(l: Accounts, chat: string): int
  {
    if chat in l then l[chat].checks else 0
  }

  predicate CanAfford(l: Accounts, chat: string, amount: int)
  {
    Balance(l, chat) >= amount
  }

  /**
   * `charge`: when the balance covers `amount`, move it from the balance to
   * the spent total and count `checks` more paid checks; otherwise report
   * failure and persist nothing.
   */
  function Charge(l: Accounts, chat: string, amount: int, checks: int): (r: (bool, Accounts))
    ensures r.0 <==> CanAfford(l, chat, amount)
    ensures !r.0 ==> r.1 == l
    ensures r.0 ==> (chat in r.1
      && Balance(r.1, chat) == Balance(l, chat) - amount
      && Spent(r.1, chat) == Spent(l, chat) + amount
      && Checks(r.1, chat) == Checks(l, chat) + checks)
    ensures OthersUnchanged(l, r.1, chat)
  {
    var u := if chat in l then l[chat] else Fresh;
    if u.balance < amount then (false, l)
    else (true, l[chat := Account(u.balance - amount, u.checks + checks, u.spent + amount)])
  }

  /** `credit`: add `amount` to the balance, opening the account if needed; returns the new balance. */
  function Credit(l: Accounts, chat: string, amount: int): (r: (int, Accounts))
    ensures chat in r.1
    ensures r.0 == Balance(l, chat) + amount == Balance(r.1, chat)
    ensures Spent(r.1, chat) == Spent(l, chat) && Checks(r.1, chat) == Checks(l, chat)
    ensures OthersUnchanged(l, r.1, chat)
  {
    var u := if chat in l then l[chat] else Fresh;
    var b := u.balance + amount;
    (b, l[chat := u.(balance := b)])
  }

  /** Opening the account first changes nothing about a credit (the webhook and `/credit` do both). */
  lemma CreditAfterEnsure(l: Accounts, chat: string, amount: int)
    ensures Credit(EnsureUser(l, chat), chat, amount) == Credit(l, chat, amount)
  {
    var u := if chat in l then l[chat] else Fresh;
    var v := u.(balance := u.balance + amount);
    assert EnsureUser(l, chat)[chat := v] == l[chat := v];
  }

  /** A charge moves money between balance and spent: their sum is preserved. */
  lemma ChargeKeepsTotal(l: Accounts, chat: string, amount: int, checks: int)
    ensures var l2 := Charge(l, chat, amount, checks).1;
      Balance(l2, chat) + Spent(l2, chat) == Balance(l, chat) + Spent(l, chat)
  {
  }

  /** No balance anywhere is negative. */
  predicate Solvent(l: Accounts)
  {
    forall c :: c in l ==> l[c].balance >= 0
  }

  /** A charge never overdraws, whatever the sign of the amount. */
  lemma ChargeKeepsSolvent(l: Accounts, chat: string, amount: int, checks: int)
    requires Solvent(l)
    ensures Solvent(Charge(l, chat, amount, checks).1)
  {
    var l2 := Charge(l, chat, amount, checks).1;
    forall c | c in l2 ensures l2[c].balance >= 0 {
      if c == chat {
        assert Balance(l2, chat) == l2[c].balance;
      }
    }
  }

  lemma CreditKeepsSolvent(l: Accounts, chat: string, amount: int)
    requires Solvent(l) && amount >= 0
    ensures Solvent(Credit(l, chat, amount).1)
  {
    var l2 := Credit(l, chat, amount).1;
    forall c | c in l2 ensures l2[c].balance >= 0 {
      if c == chat {
        assert Balance(l2, chat) == l2[c].balance;
      }
    }
  }

  /** Charging back what was just credited succeeds and restores the balance. */
  lemma CreditThenCharge(l: Accounts, chat: string, amount: int, checks: int)
    requires Balance(l, chat) >= 0
    ensures var l1 := Credit(l, chat, amount).1;
      var r := Charge(l1, chat, amount, checks);
      r.0 && Balance(r.1, chat) == Balance(l, chat) && Spent(r.1, chat) == Spent(l, chat) + amount
  {
  }

  // ===========================================================================
  // The in-memory fallback ledger of the Telegram bot

  /**
   * The fallback `charge` opens the account first, so even a refused charge
   * leaves an (empty) account behind; otherwise it is the ledger's charge.
   */
  function MemCharge(l: Accounts, chat: string, amount: int, checks: int): (r: (bool, Accounts))
    ensures r.0 <==> CanAfford(l, chat, amount)
    ensures !r.0 ==> r.1 == EnsureUser(l, chat)
    ensures r == Charge(EnsureUser(l, chat), chat, amount, checks)
  {
    var l1 := EnsureUser(l, chat);
    var u := l1[chat];
    if u.balance < amount then (false, l1)
    else (true, l1[chat := Account(u.balance - amount, u.checks + checks, u.spent + amount)])
  }

  /** The fallback `credit` opens the account and adds, exactly like the ledger's. */
  function MemCredit(l: Accounts, chat: string, amount: int): (r: (int, Accounts))
    ensures r == Credit(l, chat, amount)
  {
    var l1 := EnsureUser(l, chat);
    var u := l1[chat];
    var v := u.(balance := u.balance + amount);
    assert l1[chat := v] == l[chat := v];
    (v.balance, l1[chat := v])
  }

  /**
   * Both charges agree on every balance, spent total and check count; they
   * differ at most in whether a refused chat's empty account exists.
   */
  lemma ChargesAgree(l: Accounts, chat: string, amount: int, checks: int, c: string)
    ensures var a := Charge(l, chat, amount, checks); var b := MemCharge(l, chat, amount, checks);
      a.0 == b.0 && Balance(a.1, c) == Balance(b.1, c) && Spent(a.1, c) == Spent(b.1, c)
      && Checks(a.1, c) == Checks(b.1, c)
  {
  }

  /** Once the account exists (as the bot's commands ensure first) the two charges coincide. */
  lemma ChargesCoincideAfterEnsure(l: Accounts, chat: string, amount: int, checks: int)
    requires chat in l
    ensures Charge(l, chat, amount, checks) == MemCharge(l, chat, amount, checks)
  {
  }
}
