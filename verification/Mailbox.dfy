/**
  A team member's mailbox file: an append-only list of messages and read receipts
  (`src/mewcode/teams/mailbox.py`).
*/
module Mailboxes {
  import opened Wrappers
  import opened Chat
  import opened IdLists

  datatype Mail = Mail(id: string, sender: string, summary: string, protocol: string, body: string, payload: Json)

  datatype MailRecord = Posted(mail: Mail) | Receipt(ids: seq<string>)

  function MailIds(mails: seq<Mail>): (ids: seq<string>)
    ensures |ids| == |mails|
  {
    seq(|mails|, i requires 0 <= i < |mails| => mails[i].id)
  }

  /** The messages of a mailbox: the first record of each id counts. */
  function Mails(records: seq<MailRecord>): (mails: seq<Mail>)
    ensures NoDuplicates(MailIds(mails))
  {
    if records == [] then []
    else
      var before := Mails(records[..|records| - 1]);
      match records[|records| - 1]
      case Receipt(_) => before
      case Posted(m) =>
        if m.id in MailIds(before) then before
        else
          assert MailIds(before + [m]) == MailIds(before) + [m.id];
          before + [m]
  }

  function ReadIds(records: seq<MailRecord>): set<string> {
    if records == [] then {}
    else
      ReadIds(records[..|records| - 1])
      + match records[|records| - 1] { case Receipt(ids) => Elements(ids) case Posted(_) => {} }
  }

  /** The messages that satisfy "not in `skip`", in order. */
  function Except(mails: seq<Mail>, skip: set<string>): (rest: seq<Mail>)
    ensures |rest| <= |mails|
  {
    if mails == [] then []
    else (if mails[0].id in skip then [] else [mails[0]]) + Except(mails[1..], skip)
  }

  function Unread(records: seq<MailRecord>): seq<Mail> {
    Except(Mails(records), ReadIds(records))
  }

  /** The first page of unread messages. */
  function FirstUnread(records: seq<MailRecord>, limit: nat): seq<Mail> {
    if |Unread(records)| <= limit then Unread(records) else Unread(records)[..limit]
  }

  /** Ids in `known`, each once, in order of appearance. */
  function KnownOnce(ids: seq<string>, known: set<string>): (selected: seq<string>)
    ensures Elements(selected) == Elements(ids) * known
    ensures |selected| <= |ids| && NoDuplicates(selected)
  {
    if ids == [] then []
    else
      var before := KnownOnce(ids[..|ids| - 1], known);
      var id := ids[|ids| - 1];
      assert Elements(ids) == Elements(ids[..|ids| - 1]) + {id};
      assert Elements(before + [id]) == Elements(before) + {id};
      if id in known && id !in before then before + [id] else before
  }

  function AppendRead(records: seq<MailRecord>, ids: seq<string>): seq<MailRecord> {
    var selected := KnownOnce(ids, Elements(MailIds(Mails(records))));
    if selected == [] then records else records + [Receipt(selected)]
  }

  /** Reading marks exactly the known ids and changes no message. */
  lemma AppendReadMarks(records: seq<MailRecord>, ids: seq<string>)
    ensures Mails(AppendRead(records, ids)) == Mails(records)
    ensures ReadIds(AppendRead(records, ids)) == ReadIds(records) + Elements(ids) * Elements(MailIds(Mails(records)))
  {
    var selected := KnownOnce(ids, Elements(MailIds(Mails(records))));
    var after := records + [Receipt(selected)];
    assert after[..|after| - 1] == records;
  }

  /** One more record: a first posting adds its message at the end, anything else adds none. */
  lemma MailsNext(records: seq<MailRecord>, k: nat)
    requires k < |records|
    ensures
      var (before, after) := (Mails(records[..k]), Mails(records[..k + 1]));
      match records[k]
      case Receipt(_) => after == before
      case Posted(m) => after == if m.id in MailIds(before) then before else before + [m]
  {
    assert records[..k + 1][..k] == records[..k];
  }

  lemma {:induction false} MailsGrow(records: seq<MailRecord>, k: nat)
    requires k <= |records|
    ensures Mails(records[..k]) <= Mails(records)
    decreases |records| - k
  {
    if k == |records| {
      assert records[..k] == records;
    } else {
      MailsNext(records, k);
      MailsGrow(records, k + 1);
    }
  }

  /** Every message was posted. */
  lemma {:induction false} PostedSource(records: seq<MailRecord>, k: nat, i: nat) returns (j: nat)
    requires k <= |records| && i < |Mails(records[..k])|
    ensures j < k && records[j] == Posted(Mails(records[..k])[i])
    decreases k
  {
    if k > 0 {
      hide Mails;
      MailsNext(records, k - 1);
      if i < |Mails(records[..k - 1])| {
        j := PostedSource(records, k - 1, i);
      } else {
        j := k - 1;
      }
    }
  }

  /** Of the records that post under one id the first one counts, and the messages stand in posting order. */
  lemma FirstPostingCounts(records: seq<MailRecord>, k: nat)
    requires k < |records| && records[k].Posted?
    ensures
      var (m, place) := (records[k].mail, |Mails(records[..k])|);
      && (exists i :: 0 <= i < |Mails(records)| && Mails(records)[i].id == m.id)
      && ((forall j :: 0 <= j < k && records[j].Posted? ==> records[j].mail.id != m.id) ==>
            place < |Mails(records)| && Mails(records)[place] == m)
  {
    hide Mails;
    var m, before, after := records[k].mail, Mails(records[..k]), Mails(records[..k + 1]);
    MailsNext(records, k);
    MailsGrow(records, k + 1);
    if m.id in MailIds(before) {
      var i :| 0 <= i < |before| && MailIds(before)[i] == m.id;
      var j := PostedSource(records, k, i);
      assert records[j].mail.id == m.id && after[i] == before[i] && Mails(records)[i].id == m.id;
    } else {
      assert after[|before|] == m && Mails(records)[|before|].id == m.id;
    }
  }

  /** An id is read if and only if some receipt names it. */
  lemma {:induction false} ReadIff(records: seq<MailRecord>, id: string)
    ensures id in ReadIds(records) <==> exists i :: 0 <= i < |records| && records[i].Receipt? && id in records[i].ids
    decreases |records|
  {
    if records != [] {
      var before, last := records[..|records| - 1], |records| - 1;
      ReadIff(before, id);
      if i :| 0 <= i < |before| && before[i].Receipt? && id in before[i].ids { assert records[i] == before[i]; }
      if i :| 0 <= i < |records| && records[i].Receipt? && id in records[i].ids && i != last {
        assert before[i] == records[i];
      }
      assert records[last].Receipt? && id in records[last].ids ==> id in ReadIds(records);
    }
  }

  /** Leaving messages out keeps the order of the others. */
  lemma {:induction false} ExceptJoin(a: seq<Mail>, b: seq<Mail>, skip: set<string>)
    ensures Except(a + b, skip) == Except(a, skip) + Except(b, skip)
    decreases |a|
  {
    if a == [] {
      assert a + b == b;
    } else {
      assert (a + b)[0] == a[0] && (a + b)[1..] == a[1..] + b;
      ExceptJoin(a[1..], b, skip);
      ExceptFirst(a, skip);
      ExceptFirst(a + b, skip);
      hide Except;
      var first := if a[0].id in skip then [] else [a[0]];
      assert first + (Except(a[1..], skip) + Except(b, skip)) == first + Except(a[1..], skip) + Except(b, skip);
    }
  }

  lemma ExceptFirst(a: seq<Mail>, skip: set<string>)
    requires a != []
    ensures Except(a, skip) == (if a[0].id in skip then [] else [a[0]]) + Except(a[1..], skip)
  {
  }

  lemma ExceptOne(m: Mail, skip: set<string>)
    ensures Except([m], skip) == if m.id in skip then [] else [m]
  {
    assert [m][1..] == [];
  }

  /** The page holds the first unread messages in posting order: all when they fit, and never more than the limit. */
  lemma PageIsFirst(records: seq<MailRecord>, limit: nat)
    ensures
      var page, unread := FirstUnread(records, limit), Except(Mails(records), ReadIds(records));
      page <= unread && |page| == if |unread| < limit then |unread| else limit
  {
  }

  lemma PostedAtEnd(records: seq<MailRecord>, m: Mail)
    requires m.id !in MailIds(Mails(records))
    ensures Mails(records + [Posted(m)]) == Mails(records) + [m]
    ensures ReadIds(records + [Posted(m)]) == ReadIds(records)
  {
    var after := records + [Posted(m)];
    assert after[..|after| - 1] == records;
  }

  // --- The store ----------------------------------------------------------------------

  /** The mailbox file of one participant, its lock held during each method. */
  class TeamMailbox {
    var records: seq<MailRecord>

    constructor ()
      ensures records == []
    {
      records := [];
    }

    method Messages() returns (messages: seq<Mail>, read: set<string>)
      ensures messages == Mails(records) && read == ReadIds(records)
    {
      messages, read := [], {};
      var seen: set<string> := {};
      var i := 0;
      while i < |records|
        invariant 0 <= i <= |records|
        invariant messages == Mails(records[..i]) && read == ReadIds(records[..i])
        invariant seen == Elements(MailIds(messages))
      {
        assert records[..i + 1][..i] == records[..i];
        match records[i] {
          case Posted(m) =>
            if m.id !in seen {
              assert MailIds(messages + [m]) == MailIds(messages) + [m.id];
              messages, seen := messages + [m], seen + {m.id};
            }
          case Receipt(ids) =>
            read := read + Elements(ids);
        }
        i := i + 1;
      }
      assert records[..i] == records;
    }

    method AppendMessage(m: Mail) returns (added: bool)
      modifies this
      ensures added <==> m.id !in MailIds(Mails(old(records)))
      ensures records == if added then old(records) + [Posted(m)] else old(records)
    {
      var messages, _ := Messages();
      if m.id in MailIds(messages) {
        return false;
      }
      records := records + [Posted(m)];
      return true;
    }

    method MarkRead(ids: seq<string>) returns (selected: seq<string>)
      modifies this
      ensures records == AppendRead(old(records), ids)
      ensures selected == KnownOnce(ids, Elements(MailIds(Mails(old(records)))))
    {
      var messages, _ := Messages();
      var known := Elements(MailIds(messages));
      selected := [];
      var i := 0;
      while i < |ids|
        invariant 0 <= i <= |ids|
        invariant selected == KnownOnce(ids[..i], known)
      {
        assert ids[..i + 1][..i] == ids[..i];
        if ids[i] in known && ids[i] !in selected {
          selected := selected + [ids[i]];
        }
        i := i + 1;
      }
      assert ids[..i] == ids;
      if selected == [] {
        return;
      }
      records := records + [Receipt(selected)];
    }

    method ListUnread(limit: int) returns (page: Option<seq<Mail>>)
      ensures page == if 1 <= limit <= 1000 then Some(FirstUnread(records, limit)) else None
    {
      if limit < 1 || limit > 1000 {
        return None;
      }
      var messages, read := Messages();
      hide Mails, ReadIds;
      var unread: seq<Mail> := [];
      var i := 0;
      assert messages[0..] == messages;
      while i < |messages|
        invariant 0 <= i <= |messages|
        invariant unread + Except(messages[i..], read) == Except(messages, read)
      {
        assert messages[i..][1..] == messages[i + 1..];
        if messages[i].id !in read {
          unread := unread + [messages[i]];
        }
        i := i + 1;
      }
      assert unread == Unread(records) by { assert messages[i..] == []; }
      return Some(if |unread| <= limit then unread else unread[..limit]);
    }
  }
}
