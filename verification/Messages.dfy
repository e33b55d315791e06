/**
 Protocol messages (messages/types.go). Encoding is abstracted away: a body is a typed value,
 a digest determines its message, and a signature is the key that made it.
 */
module Messages {
  import opened Prelude

  /** A key pair. Public and private halves are identified. */
  datatype Key = Key(id: nat)

  /** SHA-256 of a message, taken to be injective. */
  datatype Digest = Digest(message: string)

  datatype Body =
    | PrePrepare(view: int, seqId: int, digest: Digest, message: string)
    | Prepare(view: int, seqId: int, digest: Digest, nodeId: string)
    | Commit(view: int, seqId: int, digest: Digest, nodeId: string)

  /** `signer` is the key whose private half signed the body; `sender` is only claimed. */
  datatype Envelope = Envelope(sender: string, signer: Key, body: Body)

  datatype Reply = Reply(view: int, timestamp: int, clientId: string, nodeId: string, result: string)

  /** messages.ValidateEnvelope: a nil public key never validates. */
  predicate ValidateEnvelope(env: Envelope, pub: Option<Key>) {
    pub == Some(env.signer)
  }

  function OkResult(operation: string): string {
    "OK:" + operation
  }
}
