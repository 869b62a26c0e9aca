/** `parent_auth.py`: parent accounts in `parents.json` (email to account
    record), the e-mail format check, password hashing, and the session fields a
    parent login sets and a logout clears. The hash function is a parameter:
    nothing is assumed about it. */
module ParentAuth {
  import opened Json
  import Seqs

  // ---- validate_email ------------------------------------------------------

  predicate Letter(c: char) { 'a' <= c <= 'z' || 'A' <= c <= 'Z' }

  predicate Alnum(c: char) { Letter(c) || '0' <= c <= '9' }

  /** `[a-zA-Z0-9._%+-]` */
  predicate LocalChar(c: char) { Alnum(c) || c == '.' || c == '_' || c == '%' || c == '+' || c == '-' }

  /** `[a-zA-Z0-9.-]` */
  predicate DomainChar(c: char) { Alnum(c) || c == '.' || c == '-' }

  /** `b` is `local@domain.tld` with the '@' at `i` and the last dot at `j`. */
  predicate EmailShapeAt(b: string, i: int, j: int)
  {
    && 1 <= i && i + 2 <= j && j + 3 <= |b|
    && b[i] == '@' && b[j] == '.'
    && (forall k :: 0 <= k < i ==> LocalChar(b[k]))
    && (forall k :: i < k < j ==> DomainChar(b[k]))
    && (forall k :: j < k < |b| ==> Letter(b[k]))
  }

  /** The whole of `b` matches `[a-zA-Z0-9._%+-]+@[a-zA-Z0-9.-]+\.[a-zA-Z]{2,}`
      for some way of splitting it. */
  ghost predicate EmailShape(b: string)
  {
    exists i, j :: 0 <= i < j < |b| && EmailShapeAt(b, i, j)
  }

  /** The position of the last `c` in `s`. */
  function LastIndexOf(s: string, c: char): (j: nat)
    requires c in s
    ensures j < |s| && s[j] == c
    ensures forall k :: j < k < |s| ==> s[k] != c
  {
    if s[|s| - 1] == c then |s| - 1 else LastIndexOf(s[..|s| - 1], c)
  }

  /** The regular expression tried at the only split it can use: the first '@'
      (no character before it may be one) and the last '.' (no TLD letter is one). */
  predicate MatchesEmail(b: string)
  {
    '@' in b && '.' in b && EmailShapeAt(b, Seqs.IndexOf(b, '@'), LastIndexOf(b, '.'))
  }

  lemma MatchesEmailIffShape(b: string)
    ensures MatchesEmail(b) <==> EmailShape(b)
  {
    if EmailShape(b) {
      var i, j :| 0 <= i < j < |b| && EmailShapeAt(b, i, j);
      var at := Seqs.IndexOf(b, '@');
      assert forall k :: 0 <= k < i ==> b[k] != '@';
      assert at == i;
      var dot := LastIndexOf(b, '.');
      assert forall k :: j < k < |b| ==> b[k] != '.';
      assert dot == j;
    }
  }

  /** `validate_email`: `re.match` with the pattern anchored by `^` and `$`;
      Python's `$` also matches just before one final newline. */
  function ValidateEmail(email: string): (ok: bool)
    ensures ok <==> EmailShape(email) || (email != [] && email[|email| - 1] == '\n' && EmailShape(email[..|email| - 1]))
  {
    MatchesEmailIffShape(email);
    if email != [] && email[|email| - 1] == '\n' then
      MatchesEmailIffShape(email[..|email| - 1]);
      MatchesEmail(email[..|email| - 1])
    else
      MatchesEmail(email)
  }

  /** A trailing newline is accepted: `$` matches before it. */
  lemma TrailingNewlineAccepted()
    ensures ValidateEmail("ab@school.pk\n")
  {
    var b := "ab@school.pk";
    assert EmailShapeAt(b, 2, 9);
    assert "ab@school.pk\n"[..12] == b;
  }

  /** A one-letter top-level domain is rejected. */
  lemma OneLetterDomainRejected()
    ensures !ValidateEmail("ab@school.p")
  {
    var c := "ab@school.p";
    assert c[..10][..9] == "ab@school";
    assert LastIndexOf(c, '.') == 9;
  }

  // ---- hash_password / verify_password -------------------------------------

  /** `hash_password`, with the digest function as a parameter. */
  function HashPassword(hash: string -> string, password: string): string
  {
    hash(password)
  }

  /** `verify_password`: the stored digest equals the digest of the attempt. */
  function VerifyPassword(hash: string -> string, stored: string, provided: string): (ok: bool)
    ensures ok <==> stored == HashPassword(hash, provided)
  {
    stored == hash(provided)
  }

  /** A stored digest always verifies against the password it was made from. */
  lemma VerifyHashedPassword(hash: string -> string, password: string)
    ensures VerifyPassword(hash, HashPassword(hash, password), password)
  {
  }

  // ---- the accounts store and the session ------------------------------------

  /** The record `create_parent_account` stores. */
  function NewParentRecord(
    hash: string -> string, password: string, parentName: string, studentIds: seq<string>,
    phone: string, createdAt: string): (r: Record)
    ensures Get(r, "password") == Str(HashPassword(hash, password))
    ensures Get(r, "status") == Str("active")
    ensures Get(r, "student_ids") == StrList(studentIds)
  {
    map[
      "password" := Str(hash(password)),
      "parent_name" := Str(parentName),
      "student_ids" := StrList(studentIds),
      "phone" := Str(phone),
      "created_at" := Str(createdAt),
      "status" := Str("active")]
  }

  /** `authenticate_parent` succeeds: the email is registered and its stored
      password is the digest of the attempt (a missing or non-text password field
      makes the lookup or the comparison fail). */
  predicate Authenticates(parents: map<string, Record>, email: string, password: string, hash: string -> string)
  {
    email in parents && Get(parents[email], "password") == Str(hash(password))
  }

  const CreateInvalidEmail := "Please use a valid email address"
  const CreateDuplicate := "Email already registered. Please login instead."
  const CreateDone := "Parent account created successfully"

  /** The parents store and the browser session (`st.session_state`). */
  class ParentAccounts {
    var parents: map<string, Record>
    var session: Record

    constructor (parents: map<string, Record>, session: Record)
      ensures this.parents == parents && this.session == session
    {
      this.parents := parents;
      this.session := session;
    }

    /** `create_parent_account`; `now` is the creation timestamp. */
    method CreateParentAccount(
      hash: string -> string, email: string, password: string, parentName: string,
      studentIds: seq<string>, phone: string, now: string) returns (ok: bool, message: string)
      modifies this
      ensures session == old(session)
      ensures !ValidateEmail(email) ==> !ok && message == CreateInvalidEmail && parents == old(parents)
      ensures ValidateEmail(email) && email in old(parents) ==>
        !ok && message == CreateDuplicate && parents == old(parents)
      ensures ValidateEmail(email) && email !in old(parents) ==>
        ok && message == CreateDone
        && parents == old(parents)[email := NewParentRecord(hash, password, parentName, studentIds, phone, now)]
    {
      if !ValidateEmail(email) {
        return false, CreateInvalidEmail;
      }
      if email in parents {
        return false, CreateDuplicate;
      }
      parents := parents[email := NewParentRecord(hash, password, parentName, studentIds, phone, now)];
      return true, CreateDone;
    }

    /** `authenticate_parent`: on success the session records the parent's
        email, name (default "Parent") and student ids (default []). */
    method AuthenticateParent(hash: string -> string, email: string, password: string) returns (ok: bool)
      modifies this
      ensures parents == old(parents)
      ensures ok <==> Authenticates(parents, email, password, hash)
      ensures !ok ==> session == old(session)
      ensures ok ==> session == old(session)[
        "parent_authenticated" := Bool(true)][
        "parent_email" := Str(email)][
        "parent_name" := GetOr(parents[email], "parent_name", Str("Parent"))][
        "student_ids" := GetOr(parents[email], "student_ids", StrList([]))]
    {
      if email in parents {
        var parentData := parents[email];
        if "password" in parentData && parentData["password"] == Str(hash(password)) {
          session := session[
            "parent_authenticated" := Bool(true)][
            "parent_email" := Str(email)][
            "parent_name" := GetOr(parentData, "parent_name", Str("Parent"))][
            "student_ids" := GetOr(parentData, "student_ids", StrList([]))];
          return true;
        }
      }
      return false;
    }

    /** `check_parent_authentication`: fills in the missing session fields and
        answers the `parent_authenticated` field. */
    method CheckParentAuthentication() returns (authenticated: Value)
      modifies this
      ensures parents == old(parents)
      ensures authenticated == GetOr(old(session), "parent_authenticated", Bool(false))
      ensures forall k :: k in old(session) ==> k in session && session[k] == old(session)[k]
      ensures session.Keys == old(session).Keys + {"parent_authenticated", "parent_email", "parent_name", "student_ids"}
      ensures Get(session, "parent_email") == Get(old(session), "parent_email")
      ensures Get(session, "parent_name") == Get(old(session), "parent_name")
      ensures session["student_ids"] == GetOr(old(session), "student_ids", StrList([]))
    {
      if "parent_authenticated" !in session {
        session := session["parent_authenticated" := Bool(false)];
      }
      if "parent_email" !in session {
        session := session["parent_email" := Null];
      }
      if "parent_name" !in session {
        session := session["parent_name" := Null];
      }
      if "student_ids" !in session {
        session := session["student_ids" := StrList([])];
      }
      return session["parent_authenticated"];
    }

    /** `logout_parent`. */
    method LogoutParent()
      modifies this
      ensures parents == old(parents)
      ensures session == old(session)[
        "parent_authenticated" := Bool(false)][
        "parent_email" := Null][
        "parent_name" := Null][
        "student_ids" := StrList([])][
        "is_parent_portal" := Bool(false)]
    {
      session := session[
        "parent_authenticated" := Bool(false)][
        "parent_email" := Null][
        "parent_name" := Null][
        "student_ids" := StrList([])][
        "is_parent_portal" := Bool(false)];
    }
  }

  /** A freshly created account logs in with its own password, and with another
      password exactly when that one has the same digest. */
  lemma CreatedAccountAuthenticates(
    parents: map<string, Record>, hash: string -> string, email: string, password: string,
    parentName: string, studentIds: seq<string>, phone: string, now: string, attempt: string)
    ensures var after := parents[email := NewParentRecord(hash, password, parentName, studentIds, phone, now)];
      && Authenticates(after, email, password, hash)
      && (Authenticates(after, email, attempt, hash) <==> hash(attempt) == hash(password))
  {
  }

  /** Creating an account leaves every other account's login as it was. */
  lemma CreateKeepsOtherLogins(
    parents: map<string, Record>, hash: string -> string, email: string, password: string,
    parentName: string, studentIds: seq<string>, phone: string, now: string, other: string, attempt: string)
    requires other != email
    ensures var after := parents[email := NewParentRecord(hash, password, parentName, studentIds, phone, now)];
      Authenticates(after, other, attempt, hash) <==> Authenticates(parents, other, attempt, hash)
  {
  }

  /** After a logout the session check reports "not authenticated". */
  lemma LogoutThenCheck(session: Record)
    ensures var after := session[
        "parent_authenticated" := Bool(false)][
        "parent_email" := Null][
        "parent_name" := Null][
        "student_ids" := StrList([])][
        "is_parent_portal" := Bool(false)];
      GetOr(after, "parent_authenticated", Bool(false)) == Bool(false)
  {
  }
}
