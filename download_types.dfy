/**
 * The catalog item and the JSON reply body of src/types/download.ts.  An
 * item is kept as the JavaScript record the code reads back from storage:
 * file fields and link fields are optional, so that a handler that forgets
 * to test `type` behaves here as it does there.
 */
module DownloadTypes {
  import opened Wrappers

  /** The two builds of the Worker: the modules under src/ bundled from
      src/index.ts, and the single file src/worker.js. */
  datatype Variant = ModularWorker | SingleFileWorker

  datatype Item = Item(
    id: string,
    kind: string,                 // the `type` field: "file" or "link"
    name: string,
    filename: Option<string>,
    originalName: Option<string>,
    storage: Option<string>,
    size: Option<nat>,
    url: Option<string>,
    description: string,
    badge: string,
    version: string,
    arch: string,
    createdAt: string)

  /** The reply messages the handlers send. */
  datatype Message =
    | CaptchaRequired | CaptchaFailed | PasswordCorrect | PasswordWrong
    | Unauthorized | TokenInvalid | TokenExpired | FileMissing | ObjectMissing | StorageUnavailable
    | AdminNotConfigured | AdminPasswordWrong | LoginOk | SessionExpired
    | NameAndUrlRequired | BadUrl | BadUploadFormat | NoFile | ItemNotFound
    | NoSuchRoute | ServerError

  /** The literal text each message is sent as. */
  function MessageText(m: Message): string {
    match m
    case CaptchaRequired => "请完成验证码验证"
    case CaptchaFailed => "验证码验证失败"
    case PasswordCorrect => "密码正确"
    case PasswordWrong => "密码错误"
    case Unauthorized => "未授权访问"
    case TokenInvalid => "Token无效或已过期"
    case TokenExpired => "Token已过期，请重新验证"
    case FileMissing => "文件不存在"
    case ObjectMissing => "文件未找到"
    case StorageUnavailable => "文件存储不可用"
    case AdminNotConfigured => "未配置管理员密码"
    case AdminPasswordWrong => "管理员密码错误"
    case LoginOk => "登录成功"
    case SessionExpired => "登录已过期，请重新登录"
    case NameAndUrlRequired => "名称和链接不能为空"
    case BadUrl => "链接格式不正确"
    case BadUploadFormat => "上传格式不正确"
    case NoFile => "未选择文件"
    case ItemNotFound => "未找到该资源"
    case NoSuchRoute => "未找到接口"
    case ServerError => "服务器错误"
  }

  /** `ApiResponse`: every field but `success` may be left out. */
  datatype Payload = Payload(
    success: bool,
    message: Option<Message>,
    token: Option<string>,
    requireCaptcha: Option<bool>,
    items: Option<seq<Item>>,
    item: Option<Item>)

  function Failure(m: Message): Payload {
    Payload(false, Some(m), None, None, None, None)
  }

  function CaptchaFailure(m: Message, requireCaptcha: bool): Payload {
    Payload(false, Some(m), None, Some(requireCaptcha), None, None)
  }

  function TokenGranted(token: string, m: Message): Payload {
    Payload(true, Some(m), Some(token), None, None, None)
  }

  function Listing(items: seq<Item>): Payload {
    Payload(true, None, None, None, Some(items), None)
  }

  function Created(item: Item): Payload {
    Payload(true, None, None, None, None, Some(item))
  }

  const Done: Payload := Payload(true, None, None, None, None, None)
}
