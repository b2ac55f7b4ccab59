/**
 * The wire record of the chatr crate (src/lib.rs): the message the server
 * broadcasts, with the identity of its author. Every `String` field is held
 * as its UTF-8 bytes.
 */
module Chatr {
  import opened Text

  /** `User { name, address }`: the author's display identity and `host:port` text. */
  datatype User = User(name: Bytes, address: Bytes)

  /** `Message { author, content }`: exactly an author and a content string. */
  datatype Message = Message(author: User, content: Bytes)

  /**
   * `Message::new`: the record's fields give back the three arguments,
   * unchanged and in their places, so two records are equal exactly when
   * they were built from the same name, address and content.
   */
  function New(name: Bytes, address: Bytes, content: Bytes): (m: Message)
    ensures m.author.name == name && m.author.address == address && m.content == content
  {
    Message(User(name, address), content)
  }

  /** `Message::new` loses nothing: it is injective in its three arguments. */
  lemma NewIsInjective(n1: Bytes, a1: Bytes, c1: Bytes, n2: Bytes, a2: Bytes, c2: Bytes)
    ensures New(n1, a1, c1) == New(n2, a2, c2) <==> (n1, a1, c1) == (n2, a2, c2)
  {
  }
}
