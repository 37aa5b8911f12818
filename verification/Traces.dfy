/**
 Transactions of a TON trace. A message body stands for the answers of the body decoders: each field
 is what one decoder returns on it, `None` for a body that decoder refuses.
 */
module Traces {
  import opened Wrappers

  type Address = string

  /** What a gas payment and a contract call must share to belong together. */
  datatype MatchingKey = MatchingKey(destinationChain: string, destinationAddress: string, payloadHash: string)

  /** `payload` is `None` when the hex text in the log does not decode. */
  datatype CallLog = CallLog(key: MatchingKey, sourceAddress: Address, payload: Option<string>)

  datatype ExecutedLog = ExecutedLog(messageId: string, sourceChain: string)

  datatype ApprovedLog = ApprovedLog(messageId: string, sourceChain: string)

  /** `minter` is the jetton paid with, `None` for native coins. */
  datatype PaidLog = PaidLog(key: MatchingKey, refundAddress: Address, minter: Option<Address>, amount: nat)

  datatype AddedLog = AddedLog(messageId: string, refundAddress: Address, minter: Option<Address>, amount: nat)

  datatype RefundedLog = RefundedLog(messageId: string, recipient: Address, amount: nat)

  datatype Body = Body(
    call: Option<CallLog>,
    executed: Option<ExecutedLog>,
    approved: Option<ApprovedLog>,
    nativePaid: Option<PaidLog>,
    nativeAdded: Option<AddedLog>,
    jettonAdded: Option<AddedLog>,
    jettonPaid: Option<PaidLog>,
    refunded: Option<RefundedLog>)

  datatype InMsg = InMsg(opcode: Option<nat>, body: Body)

  /** `value` and `fwdFee` are `None` when absent or not a decimal integer. */
  datatype OutMsg = OutMsg(
    destination: Option<Address>, opcode: Option<nat>, value: Option<int>, fwdFee: Option<int>, body: Body)

  /** `messageId` is the transaction hash as a message id, `None` when the hash is not base64. */
  datatype Transaction = Transaction(
    account: Address, hash: string, messageId: Option<string>, totalFees: nat,
    inMsg: Option<InMsg>, outMsgs: seq<OutMsg>)
}
