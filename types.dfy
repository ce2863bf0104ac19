/** The record shapes of lib/types.ts that the modelled code reads and writes. */
module Types {
  import opened JsText

  /** `User`; `avatar_url` may be null. Time stamps are kept as the strings the API returns. */
  datatype User = User(
    id: string, username: string, email: string, full_name: string,
    avatar_url: Option<string>, created_at: string, updated_at: string)
}
