/** The bytes that are hashed before signing: those of a message, and those of an account
    transaction. */
module SigningLayouts {
  import opened Bytes

  const ADDRESS_SIZE := 32

  datatype Header = Header(sender: seq<Byte>, nonce: nat, energy: nat, expiry: nat)

  predicate ValidHeader(h: Header) {
    && |h.sender| == ADDRESS_SIZE
    && 1 <= h.nonce < Pow256(8)
    && h.energy < Pow256(8) && h.expiry < Pow256(8)
  }

  /** Header, then payload. */
  function TransactionBody(h: Header, payload: seq<Byte>): seq<Byte> {
    h.sender + BigEndian(h.nonce, 8) + BigEndian(h.energy, 8) + BigEndian(|payload|, 4)
    + BigEndian(h.expiry, 8) + payload
  }

  /** A simple transfer: type 3, address kind 0, receiver and amount. */
  function TransferPayload(to: seq<Byte>, amount: nat): seq<Byte> {
    BigEndian(3, 1) + BigEndian(0, 1) + to + BigEndian(amount, 8)
  }

  /** Where each field of a transaction is: the sender in the first 32 bytes, then nonce, energy,
      payload size and expiry, and the payload from byte 60 on. */
  lemma BodyLayout(h: Header, payload: seq<Byte>)
    requires |h.sender| == 32 && h.nonce < Pow256(8) && h.energy < Pow256(8) && h.expiry < Pow256(8)
    ensures var body := TransactionBody(h, payload);
            && |body| == 60 + |payload|
            && body[..32] == h.sender && body[60..] == payload
            && NumberAt(body, 32, 40) == h.nonce
            && NumberAt(body, 40, 48) == h.energy
            && (|payload| < Pow256(4) ==> NumberAt(body, 48, 52) == |payload|)
            && NumberAt(body, 52, 60) == h.expiry
  {
    var body := TransactionBody(h, payload);
    assert body[32..40] == BigEndian(h.nonce, 8);
    assert body[40..48] == BigEndian(h.energy, 8);
    assert body[48..52] == BigEndian(|payload|, 4);
    assert body[52..60] == BigEndian(h.expiry, 8);
    BigEndianRoundTrip(h.nonce, 8);
    BigEndianRoundTrip(h.energy, 8);
    BigEndianRoundTrip(h.expiry, 8);
    if |payload| < Pow256(4) {
      BigEndianRoundTrip(|payload|, 4);
    }
  }

  /** Where each field of a transfer is: its type 3, the kind of address 0, the receiver, the amount. */
  lemma TransferLayout(to: seq<Byte>, amount: nat)
    requires |to| == 32 && amount < Pow256(8)
    ensures var payload := TransferPayload(to, amount);
            && |payload| == 42
            && payload[0] == 3 && payload[1] == 0
            && payload[2..34] == to
            && NumberAt(payload, 34, 42) == amount
  {
    var payload := TransferPayload(to, amount);
    OneByte(3);
    OneByte(0);
    assert payload[2..34] == to;
    assert payload[34..42] == BigEndian(amount, 8);
    BigEndianRoundTrip(amount, 8);
  }

  /** A hash function that is fed piece by piece. */
  class Hasher {
    var fed: seq<Byte>

    constructor ()
      ensures fed == []
    {
      fed := [];
    }

    method Update(bs: seq<Byte>)
      modifies this
      ensures fed == old(fed) + bs
    {
      fed := fed + bs;
    }
  }

  function MessageBytes(address: seq<Byte>, message: seq<Byte>): seq<Byte> {
    address + BigEndian(0, 8) + message
  }

  /** `get_message_digest` */
  method MessageDigest(hash: seq<Byte> -> seq<Byte>, address: seq<Byte>, message: seq<Byte>) returns (digest: seq<Byte>)
    ensures digest == hash(MessageBytes(address, message))
  {
    var hasher := new Hasher();
    hasher.Update(address);
    hasher.Update(BigEndian(0, 8));
    hasher.Update(message);
    assert hasher.fed == MessageBytes(address, message);
    digest := hash(hasher.fed);
  }

  /** Whatever is signed as a message is never the start of a transaction, nor the other way
      round, and in particular never a transaction. */
  lemma MessagesAreNotTransactions(address: seq<Byte>, message: seq<Byte>, h: Header, payload: seq<Byte>)
    requires |address| == ADDRESS_SIZE && ValidHeader(h)
    ensures !(MessageBytes(address, message) <= TransactionBody(h, payload))
    ensures !(TransactionBody(h, payload) <= MessageBytes(address, message))
  {
    var m, t := MessageBytes(address, message), TransactionBody(h, payload);
    assert m[32..40] == BigEndian(0, 8);
    assert t[32..40] == BigEndian(h.nonce, 8);
    if m <= t || t <= m {
      assert m[32..40] == t[32..40];
      BigEndianInjective(0, h.nonce, 8);
    }
  }

  /** The condition on the nonce is needed: a transaction numbered zero is a message. */
  lemma NonceZeroIsAMessage(h: Header, payload: seq<Byte>)
    requires |h.sender| == ADDRESS_SIZE && h.nonce < Pow256(8)
    ensures h.nonce == 0 <==> exists message :: MessageBytes(h.sender, message) == TransactionBody(h, payload)
  {
    var t := TransactionBody(h, payload);
    var tail := BigEndian(h.energy, 8) + BigEndian(|payload|, 4) + BigEndian(h.expiry, 8) + payload;
    assert t == h.sender + BigEndian(h.nonce, 8) + tail;
    if h.nonce == 0 {
      assert MessageBytes(h.sender, tail) == t;
    }
    forall message | MessageBytes(h.sender, message) == t ensures h.nonce == 0 {
      assert MessageBytes(h.sender, message)[32..40] == BigEndian(0, 8);
      assert t[32..40] == BigEndian(h.nonce, 8);
      Zero();
      BigEndianInjective(0, h.nonce, 8);
    }
  }

  lemma Zero()
    ensures 0 < Pow256(8)
  {
  }

  /** The body determines the header and the payload. */
  lemma BodiesAreUnambiguous(h: Header, payload: seq<Byte>, h': Header, payload': seq<Byte>)
    requires ValidHeader(h) && ValidHeader(h')
    requires TransactionBody(h, payload) == TransactionBody(h', payload')
    ensures h == h' && payload == payload'
  {
    var t, t' := TransactionBody(h, payload), TransactionBody(h', payload');
    assert t[..32] == h.sender && t'[..32] == h'.sender;
    assert t[32..40] == BigEndian(h.nonce, 8) && t'[32..40] == BigEndian(h'.nonce, 8);
    assert t[40..48] == BigEndian(h.energy, 8) && t'[40..48] == BigEndian(h'.energy, 8);
    assert t[52..60] == BigEndian(h.expiry, 8) && t'[52..60] == BigEndian(h'.expiry, 8);
    assert t[60..] == payload && t'[60..] == payload';
    BigEndianInjective(h.nonce, h'.nonce, 8);
    BigEndianInjective(h.energy, h'.energy, 8);
    BigEndianInjective(h.expiry, h'.expiry, 8);
  }

  lemma TransferPayloads(to: seq<Byte>, amount: nat, to': seq<Byte>, amount': nat)
    requires |to| == |to'| == ADDRESS_SIZE && amount < Pow256(8) && amount' < Pow256(8)
    requires TransferPayload(to, amount) == TransferPayload(to', amount')
    ensures to == to' && amount == amount'
  {
    var p, p' := TransferPayload(to, amount), TransferPayload(to', amount');
    assert to == p[2..2 + ADDRESS_SIZE] && to' == p'[2..2 + ADDRESS_SIZE];
    assert BigEndian(amount, 8) == p[2 + ADDRESS_SIZE..] && BigEndian(amount', 8) == p'[2 + ADDRESS_SIZE..];
    BigEndianInjective(amount, amount', 8);
  }

  /** The signed bytes of a transfer determine all of it. */
  lemma TransfersAreUnambiguous(h: Header, to: seq<Byte>, amount: nat, h': Header, to': seq<Byte>, amount': nat)
    requires ValidHeader(h) && ValidHeader(h')
    requires |to| == |to'| == ADDRESS_SIZE && amount < Pow256(8) && amount' < Pow256(8)
    requires TransactionBody(h, TransferPayload(to, amount)) == TransactionBody(h', TransferPayload(to', amount'))
    ensures h == h' && to == to' && amount == amount'
  {
    BodiesAreUnambiguous(h, TransferPayload(to, amount), h', TransferPayload(to', amount'));
    TransferPayloads(to, amount, to', amount');
  }
}
