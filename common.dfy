/** Value types shared by several pages and route handlers of the application. */
module Common {

  datatype Option<T> = None | Some(value: T)

  /** The parts of a browser `File` object the application reads: its name, MIME type and size in bytes. */
  datatype FileInfo = FileInfo(name: string, mimeType: string, size: int)

  /** An optional form or JSON string field as JavaScript tests it: present and non-empty is truthy. */
  predicate Truthy(s: Option<string>) {
    s.Some? && s.value != ""
  }

  /** `a || b` for an optional string `a` and a string fallback `b`. */
  function OrElse(a: Option<string>, b: string): (r: string)
    ensures Truthy(a) ==> r == a.value
    ensures !Truthy(a) ==> r == b
  {
    if Truthy(a) then a.value else b
  }
}
