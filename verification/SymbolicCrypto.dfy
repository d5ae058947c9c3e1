/**
 The cryptographic primitives as a free term algebra: every key-derivation function is an
 injective constructor, Diffie-Hellman is commutative, and an AEAD box opens only under the
 key, the nonce and the associated data it was sealed with.
 */
module SymbolicCrypto {
  import opened Wrappers

  /** Secret key material. Private keys are names; `Point(p)` is the public key of private key `p`. */
  datatype Term =
    | Secret(name: nat)
    | SharedPoint(low: nat, high: nat)
    | NoTerm
    | SessionKey(dh1: Term, dh2: Term, dh3: Term)
    | RootKey(root: Term, dh: Term)
    | ChainKey(root: Term, dh: Term)
    | NextChain(chain: Term)
    | MessageKey(chain: Term)

  /** `BadPoint` stands for bytes X25519 refuses (a wrong length, a low-order point). */
  datatype PublicKey = Point(name: nat) | BadPoint(bytes: nat)

  /** X25519 agreement; `None` models the exception the library raises. */
  function Dh(private: nat, public: PublicKey): Option<Term> {
    match public
    case BadPoint(_) => None
    case Point(other) =>
      if private <= other then Some(SharedPoint(private, other)) else Some(SharedPoint(other, private))
  }

  /** The new root key and the chain key. */
  function KdfRk(root: Term, dh: Term): (Term, Term) {
    (RootKey(root, dh), ChainKey(root, dh))
  }

  /** The message key and the next chain key. */
  function KdfCk(chain: Term): (Term, Term) {
    (MessageKey(chain), NextChain(chain))
  }

  /** The X3DH handshake header that travels in clear and is bound into the associated data. */
  datatype InitHeader = InitHeader(ek: PublicKey, spkId: int, opkId: Option<int>)

  /** The ratchet header. `MalformedHeader` is one whose fields do not parse. */
  datatype Header = Header(dh: PublicKey, pn: int, n: int) | MalformedHeader

  datatype AssociatedData = AssociatedData(context: Option<InitHeader>, header: Header)

  /** `Forged` stands for bytes that open under no key. */
  datatype Ciphertext<P> =
    | Sealed(key: Term, nonce: nat, ad: AssociatedData, plaintext: P)
    | Forged(bytes: nat)

  function Seal<P>(key: Term, nonce: nat, ad: AssociatedData, plaintext: P): Ciphertext<P> {
    Sealed(key, nonce, ad, plaintext)
  }

  function Open<P>(key: Term, nonce: nat, box: Ciphertext<P>, ad: AssociatedData): Option<P> {
    if box.Sealed? && box.key == key && box.nonce == nonce && box.ad == ad then
      Some(box.plaintext)
    else
      None
  }

  /** Both ends of an agreement compute the same secret. */
  lemma DhAgreement(a: nat, b: nat, c: nat)
    ensures Dh(a, Point(b)) == Dh(b, Point(a))
    ensures Dh(a, Point(b)) == Dh(a, Point(c)) <==> b == c
  {
  }

  /** Two agreements give one secret exactly when they are between the same two key pairs. */
  lemma DhOnlyOnePair(a: nat, b: nat, c: nat, d: nat)
    ensures Dh(a, Point(b)) == Dh(c, Point(d)) <==> (a == c && b == d) || (a == d && b == c)
  {
  }
}
