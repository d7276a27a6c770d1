/** Messages and deltas of a checkpoint (src/checkpoint/delta.rs). */
module Delta {
  datatype Role = User | Assistant

  /** A conversation message; `partial` stands for the optional metadata of a response still being streamed. */
  datatype CheckpointMessage = CheckpointMessage(role: Role, content: string, timestamp: nat, partial: bool)

  function NewUser(content: string, timestamp: nat): CheckpointMessage {
    CheckpointMessage(User, content, timestamp, false)
  }

  function NewAssistant(content: string, timestamp: nat, partial: bool): CheckpointMessage {
    CheckpointMessage(Assistant, content, timestamp, partial)
  }

  datatype CheckpointDelta = CheckpointDelta(
    sessionId: string, checkpointIndex: nat, proofHash: string, startToken: nat, endToken: nat,
    messages: seq<CheckpointMessage>, hostSignature: string)
}
