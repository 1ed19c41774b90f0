/** JSON strings (section 7 of RFC 8259), as far as it matters where they end. */
module JsonText {
  /** What may stand between the quotes: characters other than quotes and backslashes, and backslashes with
      the character each of them escapes. */
  predicate StringBody(u: string) {
    if u == "" then true
    else if u[0] == '\\' then |u| > 1 && StringBody(u[2..])
    else u[0] != '"' && StringBody(u[1..])
  }

  function Quoted(u: string): string {
    "\"" + u + "\""
  }
}
