/** A user-facing message record (com.zidsoft.zdlib.android.MsgInfo). Its four
    fields are public and updated in place, so it is a class. */
module MsgInfo {
  import opened Lang

  /** com.zidsoft.zdlib.android.MsgType; the icon and colour resources it
      carries are display details and are left out. */
  datatype MsgType = Information | NoDataFound | SuccessWithInfo | Warning | Err

  class MsgInfo {
    var msg: Option<string>
    /** Optional id that identifies the message (an Integer). */
    var msgId: Option<int>
    var msgType: Option<MsgType>
    /** A Java int used as a bit set. */
    var flags: bv32

    /** True when the record holds something to display. */
    predicate HasMsg()
      reads this
      ensures HasMsg() ==> msg.Some?
      ensures msgType.None? ==> !HasMsg()
    {
      msg.Some? && msgType.Some?
    }

    /** MsgInfo(): the empty record. */
    constructor Empty()
      ensures msg.None? && msgId.None? && msgType.None? && flags == 0
      ensures !HasMsg()
    {
      msg, msgId, msgType, flags := None, None, None, 0;
    }

    /** MsgInfo(MsgInfo): a copy of all four fields. */
    constructor Copy(other: MsgInfo)
      ensures msg == other.msg && msgId == other.msgId
      ensures msgType == other.msgType && flags == other.flags
      ensures HasMsg() == other.HasMsg()
    {
      msg, msgId, msgType, flags := other.msg, other.msgId, other.msgType, other.flags;
    }

    /** MsgInfo(msg, msgId, msgType, flags). */
    constructor (msg: Option<string>, msgId: Option<int>, msgType: Option<MsgType>, flags: bv32)
      ensures this.msg == msg && this.msgId == msgId
      ensures this.msgType == msgType && this.flags == flags
    {
      this.msg, this.msgId, this.msgType, this.flags := msg, msgId, msgType, flags;
    }

    /** MsgInfo(msg): an Information message without id or flags. */
    constructor OfText(msg: Option<string>)
      ensures this.msg == msg && msgId.None? && msgType == Some(Information) && flags == 0
      ensures HasMsg() <==> msg.Some?
    {
      this.msg, this.msgId, this.msgType, this.flags := msg, None, Some(Information), 0;
    }

    /** MsgInfo(msg, msgType). */
    constructor OfType(msg: Option<string>, msgType: Option<MsgType>)
      ensures this.msg == msg && msgId.None? && this.msgType == msgType && flags == 0
    {
      this.msg, this.msgId, this.msgType, this.flags := msg, None, msgType, 0;
    }

    /** MsgInfo(msg, msgId, msgType). */
    constructor OfTypeWithId(msg: Option<string>, msgId: Option<int>, msgType: Option<MsgType>)
      ensures this.msg == msg && this.msgId == msgId && this.msgType == msgType && flags == 0
    {
      this.msg, this.msgId, this.msgType, this.flags := msg, msgId, msgType, 0;
    }

    /** MsgInfo(msg, msgType, flags). */
    constructor OfTypeWithFlags(msg: Option<string>, msgType: Option<MsgType>, flags: bv32)
      ensures this.msg == msg && msgId.None? && this.msgType == msgType && this.flags == flags
    {
      this.msg, this.msgId, this.msgType, this.flags := msg, None, msgType, flags;
    }

    /** MsgInfo(msgResourceId, msgType) and MsgInfo(msgResourceId): the text
        is the application's string resource, looked up by the caller and
        passed in as `text`; the resource id becomes the message id. */
    constructor OfResource(text: string, msgResourceId: int, msgType: Option<MsgType>)
      ensures msg == Some(text) && msgId == Some(msgResourceId)
      ensures this.msgType == msgType && flags == 0
    {
      msg, msgId, this.msgType, flags := Some(text), Some(msgResourceId), msgType, 0;
    }

    /** MsgInfo.clear: every field back to null or 0. */
    method Clear()
      modifies this
      ensures msg.None? && msgId.None? && msgType.None? && flags == 0
      ensures !HasMsg()
    {
      msg, msgId, msgType, flags := None, None, None, 0;
    }
  }
}
