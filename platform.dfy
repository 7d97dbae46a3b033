/** The hosted backend the wiki runs against, reduced to what its code reads
    and writes: the identity provider's accounts and their `role` custom
    claims, and the document store's `users` and `wiki_pages` collections. */
module Platform {
  import opened Common

  type Uid = string

  /** The decoded token of a caller: its account id and its `role` claim. */
  datatype Token = Token(uid: Uid, role: Option<Role>)

  /** The error codes a callable function rejects a request with. */
  datatype HttpsError = PermissionDenied | InvalidArgument | AlreadyExists | Unauthenticated | Internal

  function Code(e: HttpsError): string
  {
    match e
    case PermissionDenied => "permission-denied"
    case InvalidArgument => "invalid-argument"
    case AlreadyExists => "already-exists"
    case Unauthenticated => "unauthenticated"
    case Internal => "internal"
  }

  datatype Collection = Users | WikiPages

  function CollectionName(c: Collection): string
  {
    match c
    case Users => "users"
    case WikiPages => "wiki_pages"
  }

  /** A document reference; its path is `<collection>/<id>`. */
  datatype DocRef = DocRef(collection: Collection, id: string)

  function Path(r: DocRef): string
  {
    CollectionName(r.collection) + "/" + r.id
  }

  /** A reported path names exactly one document: the collection names differ
      in their first letter and both end before the first `/`. */
  lemma PathIdentifiesDoc(r1: DocRef, r2: DocRef)
    ensures Path(r1) == Path(r2) <==> r1 == r2
  {
    if Path(r1) == Path(r2) {
      var p := Path(r1);
      assert p[0] == CollectionName(r1.collection)[0] == CollectionName(r2.collection)[0];
      assert r1.collection == r2.collection;
      var n := |CollectionName(r1.collection)| + 1;
      assert r1.id == p[n..] == r2.id;
    }
  }

  class Backend {
    /** The identity provider's accounts, in the order it lists them. */
    var accounts: seq<Uid>
    /** The `role` custom claim of each account that has one. */
    var claims: map<Uid, Role>
    /** The `users` collection: one profile document per id. */
    var users: map<Uid, Doc>
    /** The `wiki_pages` collection. */
    var pages: map<string, Doc>

    constructor(accounts: seq<Uid>, claims: map<Uid, Role>, users: map<Uid, Doc>, pages: map<string, Doc>)
      ensures this.accounts == accounts && this.claims == claims
      ensures this.users == users && this.pages == pages
    {
      this.accounts := accounts;
      this.claims := claims;
      this.users := users;
      this.pages := pages;
    }

    /** The documents of one collection. */
    function Docs(c: Collection): map<string, Doc>
      reads this
    {
      match c
      case Users => users
      case WikiPages => pages
    }

    /** Replaces (or creates) one document; nothing else changes. */
    method PutDoc(c: Collection, id: string, d: Doc)
      modifies this
      ensures users == if c == Users then old(users)[id := d] else old(users)
      ensures pages == if c == WikiPages then old(pages)[id := d] else old(pages)
      ensures accounts == old(accounts) && claims == old(claims)
    {
      match c
      case Users => users := users[id := d];
      case WikiPages => pages := pages[id := d];
    }

    /** Removes one document, if present; nothing else changes. */
    method RemoveDoc(c: Collection, id: string)
      modifies this
      ensures users == if c == Users then old(users) - {id} else old(users)
      ensures pages == if c == WikiPages then old(pages) - {id} else old(pages)
      ensures accounts == old(accounts) && claims == old(claims)
    {
      match c
      case Users => users := users - {id};
      case WikiPages => pages := pages - {id};
    }
  }
}
