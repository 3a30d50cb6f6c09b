/**
 * The chat → website user id links. File persistence and locking are
 * replaced by an immutable map passed in and handed back. The Telegram bot's
 * in-memory fallback store behaves identically.
 */
module Links {

  type Store = map<string, int>

  /** `bind`: link `chat` to `uid`, replacing any earlier link. */
  function Bind(s: Store, chat: string, uid: int): (s2: Store)
    ensures chat in s2 && s2[chat] == uid
    ensures forall c :: c in s && c != chat ==> c in s2 && s2[c] == s[c]
    ensures s2.Keys == s.Keys + {chat}
  {
    s[chat := uid]
  }

  /** `unbind`: drop the link of `chat`, if any. */
  function Unbind(s: Store, chat: string): (s2: Store)
    ensures chat !in s2
    ensures chat !in s ==> s2 == s
    ensures forall c :: c in s && c != chat ==> c in s2 && s2[c] == s[c]
    ensures s2.Keys == s.Keys - {chat}
  {
    s - {chat}
  }

  /** `get_user_id`: the linked id, 0 for a chat without a link (`or 0` maps a stored 0 to 0 as well). */
  function UserId(s: Store, chat: string): (uid: int)
    ensures chat !in s ==> uid == 0
    ensures chat in s ==> uid == s[chat]
  {
    if chat in s then s[chat] else 0
  }

  /** Reading back a binding gives the bound id. */
  lemma BindThenGet(s: Store, chat: string, uid: int, other: string)
    ensures UserId(Bind(s, chat, uid), chat) == uid
    ensures other != chat ==> UserId(Bind(s, chat, uid), other) == UserId(s, other)
  {
  }

  /** After unbinding, the chat reads as unlinked; other chats read as before. */
  lemma UnbindThenGet(s: Store, chat: string, other: string)
    ensures UserId(Unbind(s, chat), chat) == 0
    ensures other != chat ==> UserId(Unbind(s, chat), other) == UserId(s, other)
  {
  }

  /** Binding then unbinding forgets the chat altogether, whatever it was linked to before. */
  lemma BindThenUnbind(s: Store, chat: string, uid: int)
    ensures Unbind(Bind(s, chat, uid), chat) == Unbind(s, chat)
  {
  }

  /** A second bind overrides the first. */
  lemma BindOverrides(s: Store, chat: string, a: int, b: int)
    ensures Bind(Bind(s, chat, a), chat, b) == Bind(s, chat, b)
  {
  }
}
