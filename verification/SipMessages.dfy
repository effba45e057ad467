/** The SIP vocabulary the load driver and its fixture exchange, with headers already parsed.

    Digested identifiers are free constructors of what they are digested from, so two of them
    are equal exactly when their seed, run, index and purpose are. */
module SipMessages {

  /** A Call-ID: one the driver derived for a dialog index, or any other text. */
  datatype CallId = DialogCall(runId: string, index: int) | ForeignCall(text: string)

  datatype Purpose = FromPurpose | ToPurpose | InvitePurpose | AckPurpose | ByePurpose

  /** A tag or branch parameter as read from a header; `Absent` when the parameter is missing. */
  datatype Param =
    | Digest(seed: int, runId: string, index: int, purpose: Purpose)
    | OtherText(text: string)
    | Absent

  datatype Method = Invite | Ack | Bye

  datatype Request = Request(
    verb: Method, callId: CallId, branch: Param, fromTag: Param, toTag: Param, cseq: seq<string>)

  datatype Response = Response(
    code: nat, callId: CallId, branch: Param, fromTag: Param, toTag: Param,
    cseq: seq<string>, contact: string)

  /** The CSeq header split on blanks. */
  const INVITE_CSEQ: seq<string> := ["1", "INVITE"]
  const ACK_CSEQ: seq<string> := ["1", "ACK"]
  const BYE_CSEQ: seq<string> := ["2", "BYE"]

  /** Whether the CSeq header text ends with the word INVITE. */
  predicate EndsWithInvite(cseq: seq<string>) {
    |cseq| > 0 && |cseq[|cseq| - 1]| >= 6 && cseq[|cseq| - 1][|cseq[|cseq| - 1]| - 6..] == "INVITE"
  }

  /** `needle in haystack` on strings. */
  predicate Contains(haystack: string, needle: string) {
    exists k :: 0 <= k <= |haystack| && needle <= haystack[k..]
  }

  /** The identifier set of one dialog index. */
  function FromTagOf(seed: int, runId: string, index: int): Param {
    Digest(seed, runId, index, FromPurpose)
  }

  function ToTagOf(seed: int, runId: string, index: int): Param {
    Digest(seed, runId, index, ToPurpose)
  }

  function InviteBranchOf(seed: int, runId: string, index: int): Param {
    Digest(seed, runId, index, InvitePurpose)
  }

  function ByeBranchOf(seed: int, runId: string, index: int): Param {
    Digest(seed, runId, index, ByePurpose)
  }

  function InviteFor(seed: int, runId: string, index: int): Request {
    Request(Invite, DialogCall(runId, index), InviteBranchOf(seed, runId, index),
            FromTagOf(seed, runId, index), Absent, INVITE_CSEQ)
  }

  function AckFor(seed: int, runId: string, index: int): Request {
    Request(Ack, DialogCall(runId, index), Digest(seed, runId, index, AckPurpose),
            FromTagOf(seed, runId, index), ToTagOf(seed, runId, index), ACK_CSEQ)
  }

  function ByeFor(seed: int, runId: string, index: int): Request {
    Request(Bye, DialogCall(runId, index), ByeBranchOf(seed, runId, index),
            FromTagOf(seed, runId, index), ToTagOf(seed, runId, index), BYE_CSEQ)
  }

  /** The hop-by-hop ACK of a non-2xx final: the INVITE branch, and the response's own To. */
  function FailureAckFor(seed: int, runId: string, index: int, toTag: Param): Request {
    Request(Ack, DialogCall(runId, index), InviteBranchOf(seed, runId, index),
            FromTagOf(seed, runId, index), toTag, ACK_CSEQ)
  }
}
