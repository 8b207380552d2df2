/**
 * `MailHandler.handle_DATA` (mailorca.py, and src/mailorca/smtp.py): store
 * the message content, then answer the SMTP client with `250 OK`. The
 * envelope's sender and the logging are not modelled; the id and timestamp
 * the store would draw are parameters, as for `MailStore.Add`.
 */
module Smtp {
  import opened MailParse
  import opened Store

  const ReplyOk := "250 OK"

  class MailHandler {
    /** The process-wide `STORE` the handler writes to. */
    const store: MailStore

    constructor (store: MailStore)
      ensures this.store == store
    {
      this.store := store;
    }

    /** One `add` of the envelope content, and always `250 OK`. */
    method HandleData(content: Bytes, id: string, timestamp: Timestamp) returns (reply: string)
      requires store.Valid() && !IdInUse(store.mails, id)
      modifies store`mails
      ensures store.Valid()
      ensures store.mails == Added(old(store.mails), store.Entry(id, timestamp, content), store.maxHistory)
      ensures reply == ReplyOk
    {
      store.Add(content, id, timestamp);
      reply := ReplyOk;
    }
  }
}
