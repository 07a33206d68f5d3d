/**
 * SurroundSCMChangeLogParser: turns the text written by `sscm cc` into a
 * change set. The first line is a summary and is skipped; every later line
 * holds seven fields, each read as "skip one character, take everything up
 * to the next '>'". The first line that is a "total-0" line or does not have
 * all seven fields ends the parse; the entries already added are kept.
 */
module ChangeLogParser {
  import opened Wrappers
  import opened JavaText
  import opened ChangeLog

  /** One field taken off the front of a line, and the text after its '>'. */
  datatype Cut = Cut(field: string, rest: string)

  /**
   * One field: characters from index 1 up to the first '>', then the text after
   * that '>'. There is none when that '>' is missing or is the first character.
   */
  function NextField(line: string): (r: Option<Cut>)
    ensures r.Some? ==> |r.value.field| + |r.value.rest| + 2 == |line|
  {
    var end := IndexOf(line, '>');
    if end <= 0 then None else Some(Cut(line[1..end], line[end + 1..]))
  }

  /**
   * What a look-up means: it fails exactly when the line has no '>' or starts
   * with one; otherwise the line is one skipped character, a field without '>',
   * the '>' and the rest.
   */
  lemma NextFieldMeaning(line: string)
    ensures NextField(line).None? <==> '>' !in line || line[0] == '>'
    ensures NextField(line).Some? ==>
              var c := NextField(line).value;
              && line[0] != '>' && '>' !in c.field
              && line == [line[0]] + c.field + ">" + c.rest
  {
    var end := IndexOf(line, '>');
    IndexOfMeaning(line, '>');
    if end > 0 {
      var field, rest := line[1..end], line[end + 1..];
      assert line == line[..1] + field + line[end..end + 1] + rest;
      assert line[..1] == [line[0]] && line[end..end + 1] == ">";
      forall j | 0 <= j < |field|
        ensures field[j] != '>'
      {
        assert field[j] == line[j + 1];
      }
    }
  }

  /** A field opened by '<': `<value>`. */
  function Enclose(value: string): string {
    "<" + value + ">"
  }

  /**
   * Reading a field back from `open`, `value` and '>' gives the value and
   * leaves the rest of the line, whatever the opening character other than '>'.
   */
  lemma NextFieldOfOpened(open: char, value: string, rest: string)
    requires open != '>' && '>' !in value
    ensures NextField([open] + value + ">" + rest) == Some(Cut(value, rest))
  {
    var line := [open] + value + ">" + rest;
    assert line[1 + |value|] == '>';
    assert forall k :: 0 <= k < |value| ==> line[1 + k] == value[k];
    IndexOfMeaning(line, '>');
    assert IndexOf(line, '>') == 1 + |value|;
    assert line[1..1 + |value|] == value;
    assert line[2 + |value|..] == rest;
  }

  /** Reading a field back from `<value>` gives the value and leaves the rest of the line. */
  lemma NextFieldOfEnclosed(value: string, rest: string)
    requires '>' !in value
    ensures NextField(Enclose(value) + rest) == Some(Cut(value, rest))
  {
    NextFieldOfOpened('<', value, rest);
  }

  /** `fs` in front of the fields of `tail`, when `tail` has them. */
  function Prefixed(fs: seq<string>, tail: Option<seq<string>>): Option<seq<string>> {
    match tail
    case None => None
    case Some(more) => Some(fs + more)
  }

  /**
   * The next `n` fields of a line, read one after the other; none when one of
   * the `n` look-ups fails.
   */
  function TakeFields(line: string, n: nat): (r: Option<seq<string>>)
    ensures r.Some? ==> |r.value| == n
  {
    if n == 0 then Some([])
    else
      match NextField(line)
      case None => None
      case Some(c) => Prefixed([c.field], TakeFields(c.rest, n - 1))
  }

  /**
   * The seven fields of one line, in the order path, name, version, action,
   * date, comment, user; the entry's file is `path + "/" + name`. Text after
   * the seventh '>' is not looked at.
   */
  function ParseRecord(line: string): (r: Option<Entry>)
    ensures line != [] && line[0] == '>' ==> r.None?
  {
    match TakeFields(line, 7)
    case None => None
    case Some(fs) => Some(NewEntry(fs[0] + "/" + fs[1], fs[5], fs[2], fs[3], fs[4], fs[6]))
  }

  /** Fields written one after the other, each as `<value>`. */
  function EncloseAll(fs: seq<string>): string {
    if fs == [] then "" else Enclose(fs[0]) + EncloseAll(fs[1..])
  }

  /** Reading `|fs|` fields back from their rendering gives `fs`, whatever follows. */
  lemma {:induction false} TakeFieldsOfEnclosed(fs: seq<string>, tail: string)
    requires forall k :: 0 <= k < |fs| ==> '>' !in fs[k]
    ensures TakeFields(EncloseAll(fs) + tail, |fs|) == Some(fs)
  {
    if fs != [] {
      var rest := EncloseAll(fs[1..]) + tail;
      assert EncloseAll(fs) + tail == Enclose(fs[0]) + rest;
      NextFieldOfEnclosed(fs[0], rest);
      TakeFieldsOfEnclosed(fs[1..], tail);
      assert [fs[0]] + fs[1..] == fs;
    }
  }

  /** A line of seven `<value>` fields. */
  function RenderRecord(path: string, name: string, version: string, action: string, date: string,
                        comment: string, user: string): string
  {
    EncloseAll([path, name, version, action, date, comment, user])
  }

  /**
   * Fields written with any opening character other than '>': `opens[k]`,
   * then `fs[k]`, then '>'.
   */
  function Delimited(opens: seq<char>, fs: seq<string>): string
    requires |opens| == |fs|
  {
    if fs == [] then "" else [opens[0]] + fs[0] + ">" + Delimited(opens[1..], fs[1..])
  }

  /**
   * The opening character of a field is skipped whatever it is, as long as it
   * is not '>': reading `|fs|` fields back gives `fs`, whatever follows.
   */
  lemma {:induction false} TakeFieldsOfDelimited(opens: seq<char>, fs: seq<string>, tail: string)
    requires |opens| == |fs|
    requires forall k :: 0 <= k < |opens| ==> opens[k] != '>'
    requires forall k :: 0 <= k < |fs| ==> '>' !in fs[k]
    ensures TakeFields(Delimited(opens, fs) + tail, |fs|) == Some(fs)
  {
    if fs != [] {
      var rest := Delimited(opens[1..], fs[1..]) + tail;
      var line := [opens[0]] + fs[0] + ">" + rest;
      assert Delimited(opens, fs) + tail == line;
      NextFieldOfOpened(opens[0], fs[0], rest);
      TakeFieldsOfDelimited(opens[1..], fs[1..], tail);
      assert [fs[0]] + fs[1..] == fs;
    }
  }

  /**
   * A line of seven fields, each opened by any character other than '>',
   * gives the entry of those fields, whatever follows the seventh '>'.
   */
  lemma ParseRecordOfDelimited(opens: seq<char>, fs: seq<string>, tail: string)
    requires |opens| == |fs| == 7
    requires forall k :: 0 <= k < 7 ==> opens[k] != '>'
    requires forall k :: 0 <= k < 7 ==> '>' !in fs[k]
    ensures ParseRecord(Delimited(opens, fs) + tail) == Some(Entry(fs[0] + "/" + fs[1], fs[5], fs[2], fs[3], fs[4], Some(fs[6])))
  {
    TakeFieldsOfDelimited(opens, fs, tail);
  }

  /**
   * Reading a rendered line gives back exactly its fields, with path and name
   * joined by "/", whatever follows the seventh field.
   */
  lemma ParseRecordOfRendered(path: string, name: string, version: string, action: string, date: string,
                              comment: string, user: string, tail: string)
    requires '>' !in path && '>' !in name && '>' !in version && '>' !in action
    requires '>' !in date && '>' !in comment && '>' !in user
    ensures ParseRecord(RenderRecord(path, name, version, action, date, comment, user) + tail)
            == Some(Entry(path + "/" + name, comment, version, action, date, Some(user)))
  {
    var fs := [path, name, version, action, date, comment, user];
    TakeFieldsOfEnclosed(fs, tail);
  }

  /** A line that starts with '>' has no first field, so it never yields an entry. */
  lemma LeadingDelimiterRejected(line: string)
    requires |line| > 0 && line[0] == '>'
    ensures ParseRecord(line).None?
  {
  }

  /** A later line that the parser turns into an entry (and does not stop at). */
  predicate Accepted(line: string) {
    !StartsWith(line, "total-0") && ParseRecord(line).Some?
  }

  /**
   * The entries read from the lines after the summary line: one per line, in
   * line order, up to (not including) the first line that is not accepted.
   */
  function ParseBody(lines: seq<string>): (es: seq<Entry>)
    ensures |es| <= |lines|
  {
    if lines == [] || StartsWith(lines[0], "total-0") then []
    else
      match ParseRecord(lines[0])
      case None => []
      case Some(e) => [e] + ParseBody(lines[1..])
  }

  /**
   * Entry k of the body comes from line k, which was accepted; the line right
   * after the last entry, if any, was not.
   */
  lemma {:induction false} BodyInLineOrder(lines: seq<string>)
    ensures forall k :: 0 <= k < |ParseBody(lines)| ==>
              Accepted(lines[k]) && ParseBody(lines)[k] == ParseRecord(lines[k]).value
    ensures |ParseBody(lines)| < |lines| ==> !Accepted(lines[|ParseBody(lines)|])
  {
    if lines != [] && Accepted(lines[0]) {
      BodyInLineOrder(lines[1..]);
    }
  }

  /** `parse`: the first line is skipped whatever it holds. */
  function Parse(lines: seq<string>): (es: seq<Entry>)
    ensures lines == [] ==> es == []
    ensures lines != [] ==> |es| < |lines|
  {
    if lines == [] then [] else ParseBody(lines[1..])
  }

  /** Zero or one line gives no entry, and the first line's content never matters. */
  lemma FirstLineIgnored(first: string, other: string, rest: seq<string>)
    ensures Parse([]) == [] && Parse([first]) == []
    ensures Parse([first] + rest) == Parse([other] + rest)
  {
  }

  /**
   * At most one entry per line after the first; entry k comes from line k + 1,
   * and every line before it was accepted.
   */
  lemma ParseInLineOrder(lines: seq<string>)
    ensures |lines| <= 1 ==> Parse(lines) == []
    ensures |lines| > 1 ==> |Parse(lines)| <= |lines| - 1
    ensures forall k :: 0 <= k < |Parse(lines)| ==>
              Accepted(lines[k + 1]) && Parse(lines)[k] == ParseRecord(lines[k + 1]).value
  {
    if lines != [] {
      var body := lines[1..];
      BodyInLineOrder(body);
      assert forall k :: 0 <= k < |body| ==> body[k] == lines[k + 1];
    }
  }

  /**
   * The first later line that is a "total-0" line or is malformed ends the
   * parse: what follows it is never read, and what came before it is kept.
   */
  lemma {:induction false} StopAtRejected(lines: seq<string>, k: nat)
    requires 1 <= k < |lines| && !Accepted(lines[k])
    ensures Parse(lines) == Parse(lines[..k])
  {
    BodyStops(lines[1..], k - 1);
    assert lines[..k][1..] == lines[1..][..k - 1];
  }

  lemma {:induction false} BodyStops(body: seq<string>, k: nat)
    requires k < |body| && !Accepted(body[k])
    ensures ParseBody(body) == ParseBody(body[..k])
  {
    if k > 0 && !StartsWith(body[0], "total-0") && ParseRecord(body[0]).Some? {
      BodyStops(body[1..], k - 1);
      assert body[..k][1..] == body[1..][..k - 1];
      assert body[..k][0] == body[0];
    }
  }

  /** Reading more lines only adds entries at the end: earlier entries are never lost or reordered. */
  lemma {:induction false} ParseExtends(lines: seq<string>, more: seq<string>)
    ensures Parse(lines) <= Parse(lines + more)
  {
    if lines != [] {
      assert (lines + more)[1..] == lines[1..] + more;
      BodyExtends(lines[1..], more);
    }
  }

  lemma {:induction false} BodyExtends(body: seq<string>, more: seq<string>)
    ensures ParseBody(body) <= ParseBody(body + more)
  {
    if body != [] && !StartsWith(body[0], "total-0") && ParseRecord(body[0]).Some? {
      assert (body + more)[0] == body[0];
      assert (body + more)[1..] == body[1..] + more;
      BodyExtends(body[1..], more);
    }
  }

  /**
   * After some look-ups on `original`: the fields `taken` so far, followed by
   * the `m` fields still to be read from `line`, are the seven fields of
   * `original` (or neither side has them).
   */
  predicate Pending(original: string, taken: seq<string>, line: string, m: nat) {
    TakeFields(original, 7) == Prefixed(taken, TakeFields(line, m))
  }

  /**
   * One look-up as the loop body of `parse` writes it: `end = indexOf('>')`,
   * the field `substring(1, end)` and the rest `substring(end + 1)`; `ok` is
   * false where the source breaks out (`end <= 0`).
   */
  method LookUp(line: string) returns (ok: bool, field: string, rest: string)
    ensures ok <==> NextField(line).Some?
    ensures ok ==> NextField(line) == Some(Cut(field, rest))
  {
    var end := IndexOf(line, '>');
    if end <= 0 {
      return false, "", "";
    }
    field := line[1..end];
    rest := line[end + 1..];
    ok := true;
  }

  /** One successful look-up moves one field from the line to the fields taken so far. */
  lemma FieldTaken(original: string, taken: seq<string>, line: string, m: nat, field: string, rest: string)
    requires m > 0 && NextField(line) == Some(Cut(field, rest))
    requires Pending(original, taken, line, m)
    ensures Pending(original, taken + [field], rest, m - 1)
  {
    assert TakeFields(line, m) == Prefixed([field], TakeFields(rest, m - 1));
    match TakeFields(rest, m - 1)
    case None =>
    case Some(more) =>
      assert taken + ([field] + more) == (taken + [field]) + more;
  }

  /** A failed look-up means the line does not have its seven fields. */
  lemma FieldMissing(original: string, taken: seq<string>, line: string, m: nat)
    requires m > 0 && NextField(line).None?
    requires Pending(original, taken, line, m)
    ensures ParseRecord(original).None?
  {
  }

  /**
   * The seven look-ups of one line, in the order path, name, version, action,
   * date, comment, user; the first failing one gives up on the line. The
   * source writes the seven look-ups out one after the other; here they are
   * the seven rounds of one loop.
   */
  method ReadRecord(original: string) returns (r: Option<Entry>)
    ensures r == ParseRecord(original)
  {
    var line := original;
    var fields: seq<string> := [];
    match TakeFields(original, 7) {
      case None =>
      case Some(fs) => assert fields + fs == fs;
    }
    while |fields| < 7
      invariant |fields| <= 7
      invariant Pending(original, fields, line, 7 - |fields|)
    {
      var ok, field, rest := LookUp(line);
      if !ok {
        FieldMissing(original, fields, line, 7 - |fields|);
        return None;
      }
      FieldTaken(original, fields, line, 7 - |fields|, field, rest);
      fields := fields + [field];
      line := rest;
    }
    var name := fields[0] + "/" + fields[1];
    r := Some(NewEntry(name, fields[5], fields[2], fields[3], fields[4], fields[6]));
  }

  /** An accepted line moves its entry from the lines still to read to the entries added. */
  lemma EntryAdded(added: seq<Entry>, rest: seq<string>, e: Entry, all: seq<Entry>)
    requires rest != [] && !StartsWith(rest[0], "total-0") && ParseRecord(rest[0]) == Some(e)
    requires added + ParseBody(rest) == all
    ensures (added + [e]) + ParseBody(rest[1..]) == all
  {
  }

  /** A line that is not accepted leaves the entries added so far as the result. */
  lemma ParseStopped(added: seq<Entry>, rest: seq<string>, all: seq<Entry>)
    requires rest != [] && (StartsWith(rest[0], "total-0") || ParseRecord(rest[0]).None?)
    requires added + ParseBody(rest) == all
    ensures added == all
  {
  }

  /**
   * `parse` as the source runs it: a loop over the lines with the
   * `foundAnItem` flag, seven `indexOf('>')` look-ups per line and a `break`
   * at the first line that is a "total-0" line or is malformed.
   */
  method ParseChangeLog(lines: seq<string>) returns (cls: ChangeLogSet)
    ensures fresh(cls)
    ensures cls.changes == Parse(lines)
  {
    cls := new ChangeLogSet();
    var foundAnItem := false;
    var i := 0;
    while i < |lines|
      invariant 0 <= i <= |lines|
      invariant foundAnItem <==> i > 0
      invariant i == 0 ==> cls.changes == []
      invariant i > 0 ==> cls.changes + ParseBody(lines[i..]) == Parse(lines)
    {
      var line := lines[i];
      ghost var rest := lines[i..];
      i := i + 1;
      // skip the total line
      if !foundAnItem {
        foundAnItem := true;
        assert [] + ParseBody(lines[1..]) == Parse(lines);
        continue;
      }
      // there are none, abandon ship
      if StartsWith(line, "total-0") {
        ParseStopped(cls.changes, rest, Parse(lines));
        return;
      }
      var next := ReadRecord(line);
      if next.None? {
        ParseStopped(cls.changes, rest, Parse(lines));
        return;
      }
      EntryAdded(cls.changes, rest, next.value, Parse(lines));
      assert rest[1..] == lines[i..];
      var added := cls.AddEntry(next.value);
      if !added {
        assert false;
        return;
      }
    }
    assert cls.changes + [] == cls.changes;
  }

  /** A rendered record starts with '<', so it is never taken for a "total-0" line. */
  lemma RenderedIsNotTotal(path: string, name: string, version: string, action: string, date: string,
                           comment: string, user: string)
    ensures !StartsWith(RenderRecord(path, name, version, action, date, comment, user), "total-0")
  {
    var line := RenderRecord(path, name, version, action, date, comment, user);
    var fs := [path, name, version, action, date, comment, user];
    assert line == Enclose(path) + EncloseAll(fs[1..]);
    assert line[0] == '<';
  }

  /**
   * The record shape `>path>name>...` that puts '>' first yields no entry:
   * the parse stops at that line.
   */
  lemma LeadingGreaterThanGivesNothing()
    ensures Parse(["total-1", ">src>main.c>12>edit>" + "20230101120000>fix bug>alice"]) == []
  {
  }

  /** A summary line followed by one rendered record gives exactly that record's entry. */
  lemma OneRenderedRecord(first: string, path: string, name: string, version: string, action: string,
                          date: string, comment: string, user: string)
    requires '>' !in path && '>' !in name && '>' !in version && '>' !in action
    requires '>' !in date && '>' !in comment && '>' !in user
    ensures Parse([first, RenderRecord(path, name, version, action, date, comment, user)])
            == [Entry(path + "/" + name, comment, version, action, date, Some(user))]
  {
    var line := RenderRecord(path, name, version, action, date, comment, user);
    ParseRecordOfRendered(path, name, version, action, date, comment, user, "");
    assert line + "" == line;
    RenderedIsNotTotal(path, name, version, action, date, comment, user);
    assert [first, line][1..] == [line];
    assert [line][1..] == [];
  }

  /** The same record with each field written `<value>` yields one entry for "src/main.c". */
  lemma EnclosedRecordGivesOneEntry()
    ensures Parse(["total-1", RenderRecord("src", "main.c", "12", "edit", "20230101120000", "fix bug", "alice")])
            == [Entry("src/main.c", "fix bug", "12", "edit", "20230101120000", Some("alice"))]
  {
    assert "src" + "/" + "main.c" == "src/main.c";
    OneRenderedRecord("total-1", "src", "main.c", "12", "edit", "20230101120000", "fix bug", "alice");
  }

  /** "total-0" right after the summary line: an empty change set, not an error. */
  lemma TotalZeroGivesEmptySet(first: string)
    ensures Parse([first, "total-0"]) == []
  {
  }
}
