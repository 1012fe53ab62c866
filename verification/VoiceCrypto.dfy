/** What the voice codecs see of the voice cryptography: a keystream block for a domain, a nonce
    and a counter, or none (no key, or a failure), and the random part of a nonce. */
module VoiceCrypto {
  import opened Bits

  datatype Option<+T> = None | Some(value: T)

  const NONCE_BITS := 48
  const BLOCK_BITS := 512
  const WORD := 0x1_0000_0000      // counters are 32-bit words

  type Nonce = r: seq<bool> | |r| == NONCE_BITS witness Zeros(NONCE_BITS)
  type Block = b: seq<bool> | |b| == BLOCK_BITS witness Zeros(BLOCK_BITS)

  datatype Domain = Voice | SyncCheck | HeaderCheck | RadeLatent | RadeSignal

  /** One state of the key store: the keystream it gives, an arbitrary function. */
  type KeyStore = (Domain, Nonce, nat) -> Option<Block>

  /** No keystream block was used twice, and each under a nonce that was drawn. */
  ghost predicate Logged(used: seq<(Nonce, nat)>, drawn: set<Nonce>) {
    && (forall i, j :: 0 <= i < j < |used| ==> used[i] != used[j])
    && (forall u :: u in used ==> u.0 in drawn)
  }

  /** The blocks used under nonce r all come before block n. */
  ghost predicate Below(used: seq<(Nonce, nat)>, r: Nonce, n: nat) {
    forall u :: u in used && u.0 == r ==> u.1 < n
  }

  /** A nonce drawn for the first time has no block used. */
  lemma FreshNonce(used: seq<(Nonce, nat)>, drawn: set<Nonce>, r: Nonce)
    requires Logged(used, drawn)
    ensures Logged(used, drawn + {r})
    ensures r !in drawn ==> Below(used, r, 0)
  {
  }
}
