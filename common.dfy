/** Vocabulary shared by every handler: identifiers, optional values, the
    error answers of the HTTP handlers, and JavaScript's String.prototype.trim,
    which the handlers call and which Mongoose applies to every `trim: true`
    schema field. */
module Common {

  /** A document identifier (a MongoDB ObjectId), compared through its string form. */
  type Id = string

  datatype Option<+T> = None | Some(value: T)

  /** The error answers of the handlers and middlewares. */
  datatype Error =
    | MissingFields                              // a required body or query field is absent or empty
    | NoAddress                                  // the user has not set an address yet
    | NotEditable                                // content edit outside the initial status
    | MissingReason                              // a rejection without a reason
    | InvalidTransition(from: string, to: string) // a status pair outside the transition table
    | NotCancellable                             // cancel from a status that refuses it
    | NotConfirmable                             // confirm outside pending_confirmation
    | Duplicate                                  // a region node with the same key exists
    | HasChildren                                // a region node that still has children
    | NotFound                                   // absent, or not owned by the caller
    | Unauthenticated                            // no valid token, or no active user behind it
    | ForbiddenRole                              // role not admitted
    | ModuleDisabled                             // module access is "off"
    | ReadOnly                                   // module access is "read", "manage" required
    | RegionForbidden                            // region outside the admin's own
    | ServerError                                // the catch-all: a save refused by schema validation or a unique index

  /** The HTTP status each error is answered with. */
  function StatusCode(e: Error): (code: nat)
    ensures code in {400, 401, 403, 404, 500}
    ensures code == 401 <==> e == Unauthenticated
    ensures code == 403 <==> e in {ForbiddenRole, ModuleDisabled, ReadOnly, RegionForbidden}
    ensures code == 404 <==> e == NotFound
    ensures code == 500 <==> e == ServerError
  {
    match e
    case NotFound => 404
    case Unauthenticated => 401
    case ForbiddenRole => 403
    case ModuleDisabled => 403
    case ReadOnly => 403
    case RegionForbidden => 403
    case ServerError => 500
    case _ => 400
  }

  /** `x || null` for an id: an empty one is stored as null. */
  function IdOrNull(s: string): (r: Option<Id>)
    ensures r.None? <==> s == ""
    ensures r.Some? ==> r.value == s
  {
    if s != "" then Some(s) else None
  }

  datatype Result<+T> = Ok(value: T) | Err(error: Error)

  /** The outcome of a middleware: call `next()`, or answer with an error. */
  datatype Outcome = Pass | Fail(error: Error)

  /** The characters String.prototype.trim removes: the ECMAScript WhiteSpace
      and LineTerminator code points. */
  predicate IsSpace(c: char)
  {
    || c == '\t' || c == '\n' || c == '\U{000B}' || c == '\U{000C}' || c == '\r' || c == ' '
    || c == '\U{00A0}' || c == '\U{1680}' || ('\U{2000}' <= c <= '\U{200A}')
    || c == '\U{2028}' || c == '\U{2029}' || c == '\U{202F}' || c == '\U{205F}'
    || c == '\U{3000}' || c == '\U{FEFF}'
  }

  /** `s` with its leading white space removed. */
  function TrimStart(s: string): (r: string)
    decreases |s|
  {
    if s != "" && IsSpace(s[0]) then TrimStart(s[1..]) else s
  }

  /** TrimStart removes a prefix made of white space only, and stops at the
      first character that is not white space. */
  lemma {:induction false} TrimStartFacts(s: string)
    ensures |TrimStart(s)| <= |s| && TrimStart(s) == s[|s| - |TrimStart(s)|..]
    ensures TrimStart(s) != "" ==> !IsSpace(TrimStart(s)[0])
    ensures forall i :: 0 <= i < |s| - |TrimStart(s)| ==> IsSpace(s[i])
    decreases |s|
  {
    if s != "" && IsSpace(s[0]) {
      TrimStartFacts(s[1..]);
      var r := TrimStart(s[1..]);
      assert TrimStart(s) == r;
      forall i | 0 <= i < |s| - |r|
        ensures IsSpace(s[i])
      {
        if i > 0 {
          assert s[i] == s[1..][i - 1];
        }
      }
    }
  }

  /** `s` with its trailing white space removed. */
  function TrimEnd(s: string): (r: string)
    decreases |s|
  {
    if s != "" && IsSpace(s[|s| - 1]) then TrimEnd(s[..|s| - 1]) else s
  }

  /** TrimEnd removes a suffix made of white space only, and stops at the
      last character that is not white space. */
  lemma {:induction false} TrimEndFacts(s: string)
    ensures |TrimEnd(s)| <= |s| && TrimEnd(s) == s[..|TrimEnd(s)|]
    ensures TrimEnd(s) != "" ==> !IsSpace(TrimEnd(s)[|TrimEnd(s)| - 1])
    ensures forall i :: |TrimEnd(s)| <= i < |s| ==> IsSpace(s[i])
    decreases |s|
  {
    if s != "" && IsSpace(s[|s| - 1]) {
      TrimEndFacts(s[..|s| - 1]);
      var r := TrimEnd(s[..|s| - 1]);
      assert TrimEnd(s) == r;
      forall i | |r| <= i < |s|
        ensures IsSpace(s[i])
      {
        if i < |s| - 1 {
          assert s[i] == s[..|s| - 1][i];
        }
      }
    }
  }

  /** String.prototype.trim. */
  function Trim(s: string): (r: string)
    ensures Trimmed(r)
  {
    var t := TrimStart(s);
    TrimStartFacts(s);
    TrimEndFacts(t);
    var r := TrimEnd(t);
    assert r != "" ==> r[0] == t[0];
    r
  }

  /** Neither starts nor ends with white space. */
  predicate Trimmed(s: string)
  {
    s != "" ==> !IsSpace(s[0]) && !IsSpace(s[|s| - 1])
  }

  /** A trimmed string neither starts nor ends with white space, and is empty
      exactly when the input is white space only. */
  lemma TrimCharacterized(s: string)
    ensures |Trim(s)| <= |s|
    ensures Trimmed(Trim(s))
    ensures Trim(s) == "" <==> forall i :: 0 <= i < |s| ==> IsSpace(s[i])
  {
    var t := TrimStart(s);
    var r := TrimEnd(t);
    TrimStartFacts(s);
    TrimEndFacts(t);
    if r != "" {
      assert r[0] == t[0];
    }
    if r == "" {
      assert t == "";
    }
  }

  /** Trimming twice is trimming once. */
  lemma TrimIdempotent(s: string)
    ensures Trim(Trim(s)) == Trim(s)
  {
    var r := Trim(s);
    TrimCharacterized(s);
    if r != "" {
      TrimFixesTrimmed(r);
    }
  }

  /** A string that neither starts nor ends with white space is its own trim. */
  lemma TrimFixesTrimmed(s: string)
    requires Trimmed(s)
    ensures Trim(s) == s
  {
    TrimStartFacts(s);
    TrimEndFacts(s);
    assert TrimStart(s) == s;
  }

  /** The strings Trim leaves alone are exactly the trimmed ones. */
  lemma TrimmedIffFixed(s: string)
    ensures Trimmed(s) <==> Trim(s) == s
  {
    TrimCharacterized(s);
    if Trimmed(s) {
      TrimFixesTrimmed(s);
    }
  }

  /** A required `trim: true` string as it can be saved: non-empty, and
      (the setter having run) without white space at either end. */
  predicate RequiredTrimmed(s: string)
  {
    s != "" && Trimmed(s)
  }

  /** The value a required `trim: true` field takes on assignment passes
      validation exactly when it is not white space only. */
  lemma {:induction false} RequiredTrimmedAssigned(s: string)
    ensures RequiredTrimmed(Trim(s)) <==> exists i :: 0 <= i < |s| && !IsSpace(s[i])
  {
    TrimCharacterized(s);
  }
}
