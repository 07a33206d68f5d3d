/**
 * The change set produced from one changelog capture, and its entries
 * (SurroundSCMChangeLogSet and its nested entry class).
 */
module ChangeLog {
  import opened Wrappers
  import opened JavaText

  /** Jenkins' classification of a change. */
  datatype EditType = Add | Edit | Delete

  /**
   * One change record. `affectedFile` is already `path + "/" + name`;
   * `user` is the resolved Jenkins user id, `None` when no user was resolved.
   */
  datatype Entry = Entry(
    affectedFile: string,
    comment: string,
    version: string,
    action: string,
    date: string,
    user: Option<string>)

  /** What `getAuthor` hands to Jenkins. */
  datatype Author = UnknownUser | User(id: string)

  /** `getEditType`: "delete"/"remove" in any case is a deletion, "add" an addition, anything else an edit. */
  function GetEditType(action: string): (t: EditType)
    ensures t == Delete <==> EqualsIgnoreCase(action, "delete") || EqualsIgnoreCase(action, "remove")
    ensures t == Add <==> EqualsIgnoreCase(action, "add")
  {
    if EqualsIgnoreCase(action, "delete") || EqualsIgnoreCase(action, "remove") then Delete
    else if EqualsIgnoreCase(action, "add") then Add
    else Edit
  }

  /** Changing the case of ASCII letters in the action never changes its classification. */
  lemma EditTypeIgnoresCase(action: string)
    ensures GetEditType(LowerAscii(action)) == GetEditType(action)
    ensures GetEditType(UpperAscii(action)) == GetEditType(action)
  {
  }

  /** `getMsg`: the one-line summary shown in the changes page. */
  function Msg(e: Entry): (m: string)
  {
    "File: " + e.affectedFile + " Action: " + e.action + " Version: " + e.version + " Comment: " + e.comment
  }

  /** Where each field sits inside `getMsg`'s text: the four values follow their labels, in this order. */
  lemma MsgLayout(e: Entry)
    ensures var m := Msg(e);
            var f, a, v, c := |e.affectedFile|, |e.action|, |e.version|, |e.comment|;
            && |m| == 35 + f + a + v + c
            && m[..6] == "File: "
            && m[6..6 + f] == e.affectedFile
            && m[6 + f..15 + f] == " Action: "
            && m[15 + f..15 + f + a] == e.action
            && m[15 + f + a..25 + f + a] == " Version: "
            && m[25 + f + a..25 + f + a + v] == e.version
            && m[25 + f + a + v..35 + f + a + v] == " Comment: "
            && m[35 + f + a + v..] == e.comment
  {
  }

  /** `getName`, `getAffectedFile`, `getPath` and `getMsgAnnotated` all give the affected file. */
  function Path(e: Entry): (p: string)
    ensures p == e.affectedFile
  {
    e.affectedFile
  }

  /** `getAffectedPaths`: the one-element collection holding the affected file. */
  function AffectedPaths(e: Entry): (ps: seq<string>)
    ensures |ps| == 1 && ps[0] == e.affectedFile
  {
    [e.affectedFile]
  }

  /** `getAuthor`: the unknown user when no user was resolved. */
  function GetAuthor(e: Entry): (a: Author)
    ensures a == UnknownUser <==> e.user.None?
    ensures e.user.Some? ==> a == User(e.user.value)
  {
    match e.user
    case None => UnknownUser
    case Some(id) => User(id)
  }

  /** The Mailer plugin's per-user e-mail property. */
  datatype MailProperty = MailProperty(address: string)

  /** `hasExplicitlyConfiguredAddress`: the address is not blank. */
  predicate ExplicitlyConfigured(p: MailProperty) {
    Trim(p.address) != []
  }

  /**
   * The e-mail rule of the entry constructor: a parsed, non-empty address is
   * given to the user when the user has no mail property or one without an
   * explicitly configured address.
   */
  function BackfilledMail(current: Option<MailProperty>, email: string): (r: Option<MailProperty>)
    ensures email == [] ==> r == current
    ensures current.Some? && ExplicitlyConfigured(current.value) ==> r == current
    ensures email != [] && (current.None? || !ExplicitlyConfigured(current.value)) ==> r == Some(MailProperty(email))
  {
    if email == [] then current
    else if current.None? || !ExplicitlyConfigured(current.value) then Some(MailProperty(email))
    else current
  }

  /** Back-filling never loses an address, and a second back-fill with the same address changes nothing. */
  lemma {:induction false} BackfillStable(current: Option<MailProperty>, email: string)
    ensures current.Some? ==> BackfilledMail(current, email).Some?
    ensures BackfilledMail(BackfilledMail(current, email), email) == BackfilledMail(current, email)
  {
  }

  /** The Jenkins user an entry is attributed to; only its mail property is modelled. */
  class UserAccount {
    const id: string
    var mail: Option<MailProperty>

    constructor (id: string, mail: Option<MailProperty>)
      ensures this.id == id && this.mail == mail
    {
      this.id := id;
      this.mail := mail;
    }
  }

  /** The constructor that receives an e-mail address: builds the entry and back-fills the user's address. */
  method NewEntryWithEmail(filePath: string, comment: string, version: string, action: string, date: string,
                           user: UserAccount, email: string) returns (e: Entry)
    modifies user
    ensures e == Entry(filePath, comment, version, action, date, Some(user.id))
    ensures user.mail == BackfilledMail(old(user.mail), email)
  {
    e := Entry(filePath, comment, version, action, date, Some(user.id));
    if email != [] {
      var userMailer := user.mail;
      if userMailer.None? || !ExplicitlyConfigured(userMailer.value) {
        user.mail := Some(MailProperty(email));
      }
    }
  }

  /** The constructor the parser uses: no e-mail, so no user is touched. */
  function NewEntry(filePath: string, comment: string, version: string, action: string, date: string,
                    userName: string): (e: Entry)
    ensures e.affectedFile == filePath && e.comment == comment && e.version == version
    ensures e.action == action && e.date == date && GetAuthor(e) == User(userName)
  {
    Entry(filePath, comment, version, action, date, Some(userName))
  }

  /** The ordered, append-only list of entries of one build. */
  class ChangeLogSet {
    var changes: seq<Entry>

    /** A new set holds no entry. */
    constructor ()
      ensures changes == []
    {
      changes := [];
    }

    /** `isEmptySet`. */
    function IsEmptySet(): (b: bool)
      reads this
      ensures b <==> |changes| == 0
    {
      changes == []
    }

    /** `iterator`: the entries in the order they were added. */
    function Iterator(): (es: seq<Entry>)
      reads this
      ensures |es| == |changes| && forall k :: 0 <= k < |es| ==> es[k] == changes[k]
    {
      changes
    }

    /** `addEntry`: appends at the end and reports success, as `ArrayList.add` always does. */
    method AddEntry(e: Entry) returns (added: bool)
      modifies this
      ensures added
      ensures changes == old(changes) + [e]
    {
      changes := changes + [e];
      added := true;
    }
  }
}
