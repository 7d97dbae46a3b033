/** Shared vocabulary of the wiki: optional values, results, roles, document
    field values and the errors that JavaScript code throws. */
module Common {

  datatype Option<T> = None | Some(value: T)

  datatype Result<T, E> = Success(value: T) | Failure(error: E)

  /** The three account roles. */
  datatype Role = Viewer | Editor | Admin

  /** The string a role is stored as, in a token claim and in a profile document. */
  function RoleName(r: Role): string
  {
    match r
    case Viewer => "Viewer"
    case Editor => "Editor"
    case Admin => "Admin"
  }

  /** Reads a role name back; anything but the three names is not a role. */
  function ParseRole(s: string): (r: Option<Role>)
    ensures r.Some? <==> (s == "Admin" || s == "Editor" || s == "Viewer")
    ensures r.Some? ==> RoleName(r.value) == s
  {
    if s == "Admin" then Some(Admin)
    else if s == "Editor" then Some(Editor)
    else if s == "Viewer" then Some(Viewer)
    else None
  }

  /** Distinct roles have distinct names, so a stored name determines its role. */
  lemma RoleNameRoundTrip(r: Role)
    ensures ParseRole(RoleName(r)) == Some(r)
  {
  }

  /** A value held in a document field. */
  datatype Value =
    | Str(s: string)
    | Int(n: int)
    | Bool(b: bool)
    | Null
    | StrList(items: seq<string>)
    | ServerTimestamp

  /** A schemaless document: field name to value; a field that is not a key is undefined. */
  type Doc = map<string, Value>

  function Get(d: Doc, field: string): Option<Value>
  {
    if field in d then Some(d[field]) else None
  }

  /** JavaScript truthiness of a field value. */
  predicate ValueTruthy(v: Value)
  {
    match v
    case Str(s) => s != ""
    case Int(n) => n != 0
    case Bool(b) => b
    case Null => false
    case StrList(_) => true
    case ServerTimestamp => true
  }

  /** JavaScript truthiness of an optional string: null, undefined and "" are falsy. */
  predicate Truthy(o: Option<string>)
  {
    o.Some? && o.value != ""
  }

  /** `o || fallback` for an optional string. */
  function OrElse(o: Option<string>, fallback: string): string
  {
    if Truthy(o) then o.value else fallback
  }

  /** The string held by a field, when the field holds a string. */
  function StrField(d: Doc, field: string): Option<string>
  {
    if field in d && d[field].Str? then Some(d[field].s) else None
  }

  /** The kinds of write the document store distinguishes in its access rules. */
  datatype Operation = Write | Create | Update | Delete

  /** What a rejected document operation reports: path, operation, the data
      sent (absent for a delete) and the store's own error code. */
  datatype PermissionRequest = PermissionRequest(
    path: string,
    operation: Operation,
    requestResourceData: Option<Doc>,
    originalCode: string)

  /** The errors JavaScript code in the wiki throws. */
  datatype Thrown =
    | JsError(message: string)                  // `new Error(message)`
    | AuthError(code: string, message: string)   // an identity-provider error
    | PermissionError(request: PermissionRequest) // a wrapped document-store error
}
