/** The constants of src/constants/index.ts, repeated verbatim in src/worker.js. */
module Constants {

  /** Seconds a download token lives in the KV namespace. */
  const DownloadTokenTtl: nat := 60 * 60
  /** Seconds an admin token lives in the KV namespace. */
  const AdminTokenTtl: nat := 2 * 60 * 60
  /** Seconds a failed-attempt counter lives in the KV namespace. */
  const FailedAttemptTtl: nat := 60 * 60
  /** Failures after which a human-verification challenge is demanded. */
  const MaxFailedAttempts: int := 3
  /** The key of the JSON array of item ids, newest first. */
  const DownloadIndexKey: string := "downloads:index"

  /** A catalog entry shipped with the Workers, before an id and a time are given to it. */
  datatype DefaultDownload = DefaultDownload(
    name: string, filename: string, originalName: string, storage: string,
    description: string, badge: string, version: string, arch: string)

  const DefaultDownloads: seq<DefaultDownload> := [
    DefaultDownload("RustDesk", "rustdesk-1.4.5-x86_64.exe", "rustdesk-1.4.5-x86_64.exe", "r2",
                    "开源远程桌面工具", "远程桌面", "1.4.5", "x86_64"),
    DefaultDownload("Mumble Client", "mumble_client-1.5.857.x64.exe", "mumble_client-1.5.857.x64.exe", "r2",
                    "低延迟语音通话", "语音通讯", "1.5.857", "x64")
  ]
}
