/** The JSON envelope every service returns (`Response<T>`), the code enums it
    is built from, and the user's language, which picks between the Chinese
    and the English constant of an enum. */
module Responses {
  import opened Wrappers

  /** A constant of one of the repository's code enums (BaseCodeEnum,
      ProdcutCodeEnum, RoleCodeEnum, ...), identified by its declared name.
      The code and message strings each constant carries are declared in the
      enum classes, which are not part of this model. */
  datatype CodeEnum = CodeEnum(name: string)

  /** A string field of the envelope: the code or the message of an enum
      constant, or a literal string. */
  datatype Text = CodeOf(e: CodeEnum) | MsgOf(e: CodeEnum) | Literal(s: string)

  /** `Response<T>`: every field may be null (`None`). */
  datatype Response<T> = Response(msg: Option<Text>, code: Option<Text>, data: Option<T>)

  const SUCCESS := CodeEnum("SUCCESS")
  const ERROR := CodeEnum("ERROR")
  const PARAMETER_NULL := CodeEnum("PARAMETER_NULL")
  const QUERY_DATA_EMPTY := CodeEnum("QUERY_DATA_EMPTY")

  /** The language the current user has configured: `"zh_CN".equals(lang)`
      selects the Chinese constants and every other value, null included,
      the English ones. */
  datatype Lang = ZhCN | English

  function LangOf(setting: Option<string>): (l: Lang)
    ensures l == ZhCN <==> setting == Some("zh_CN")
  {
    if setting == Some("zh_CN") then ZhCN else English
  }

  /** The `if ("zh_CN".equals(systemLanguage)) ... else ...` choice between
      a Chinese and an English enum constant. */
  function Localized(lang: Lang, zh: CodeEnum, en: CodeEnum): (e: CodeEnum)
    ensures lang == ZhCN ==> e == zh
    ensures lang == English ==> e == en
  {
    if lang == ZhCN then zh else en
  }

  /** `Response.responseMsg(enum)`: code and message of the constant, no data. */
  function ResponseMsg<T>(e: CodeEnum): (r: Response<T>)
    ensures r.code == Some(CodeOf(e)) && r.msg == Some(MsgOf(e)) && r.data == None
  {
    Response(Some(MsgOf(e)), Some(CodeOf(e)), None)
  }

  /** `Response.responseMsg(code, msg)` with literal strings. */
  function ResponseMsgLiteral<T>(code: Option<string>, msg: Option<string>): (r: Response<T>)
    ensures r.data == None
    ensures r.code.Some? <==> code.Some?
    ensures r.msg.Some? <==> msg.Some?
    ensures code.Some? ==> r.code == Some(Literal(code.value))
    ensures msg.Some? ==> r.msg == Some(Literal(msg.value))
  {
    Response(
      if msg.Some? then Some(Literal(msg.value)) else None,
      if code.Some? then Some(Literal(code.value)) else None,
      None)
  }

  /** `Response.success()`. */
  function Success<T>(): (r: Response<T>)
    ensures r == ResponseMsg(SUCCESS)
  {
    ResponseMsg(SUCCESS)
  }

  /** `Response.fail()`. */
  function Fail<T>(): (r: Response<T>)
    ensures r == ResponseMsg(ERROR)
  {
    ResponseMsg(ERROR)
  }

  /** `Response.responseData(data)`: the SUCCESS code, the data, no message. */
  function ResponseData<T>(data: T): (r: Response<T>)
    ensures r.code == Some(CodeOf(SUCCESS)) && r.data == Some(data) && r.msg == None
  {
    Response(None, Some(CodeOf(SUCCESS)), Some(data))
  }

  /** `Response.responseData(code, data)`: exactly that code and data, no message. */
  function ResponseDataWithCode<T>(code: Option<string>, data: Option<T>): (r: Response<T>)
    ensures r.data == data && r.msg == None
    ensures r.code.Some? <==> code.Some?
    ensures code.Some? ==> r.code == Some(Literal(code.value))
  {
    Response(None, if code.Some? then Some(Literal(code.value)) else None, data)
  }

  /** The enum constant a client reads back from an envelope, when its code
      and message come from the same constant. */
  function EnumOf<T>(r: Response<T>): (e: Option<CodeEnum>)
    ensures e.Some? ==> r.code == Some(CodeOf(e.value))
  {
    match r.code
    case Some(CodeOf(c)) => if r.msg == Some(MsgOf(c)) || r.msg == None then Some(c) else None
    case _ => None
  }

  /** A client recovers the constant from `responseMsg(e)` and the data from
      `responseData(d)`; the two envelopes are told apart by the message. */
  lemma EnvelopeRoundTrip<T>(e: CodeEnum, d: T)
    ensures EnumOf(ResponseMsg<T>(e)) == Some(e)
    ensures EnumOf(ResponseData(d)) == Some(SUCCESS) && ResponseData(d).data == Some(d)
    ensures ResponseMsg<T>(e) != ResponseData(d)
    ensures Success<T>() != Fail<T>()
  {
  }

  /** Distinct constants give distinct envelopes. */
  lemma ResponseMsgInjective<T>(e1: CodeEnum, e2: CodeEnum)
    requires ResponseMsg<T>(e1) == ResponseMsg<T>(e2)
    ensures e1 == e2
  {
    assert ResponseMsg<T>(e1).code == Some(CodeOf(e1));
  }
}
