/** The inbound-mail side of the worker: decoding forwarding addresses, the SMTP
    session handler that collects recipients and message bytes, the search for the
    payout PDF in a MIME tree, and the processing of one message into a log row. */
module Mail {
  import opened Wrappers
  import opened Text
  import opened Models
  import opened Db

  // ---------------------------------------------------------------- forwarding addresses

  /** `MailApp::parse_forward_key`: lower-case the address, split it at its first `@`,
      and accept it only for the service's domain and a local part starting with the
      forwarding prefix, which is then stripped as often as it repeats. */
  function ParseForwardKey(address: string): (r: Option<string>)
    ensures r.Some? ==> !StartsWith(r.value, ForwardPrefix)
    ensures r.Some? ==> '@' !in r.value
    ensures r.Some? ==> forall i :: 0 <= i < |r.value| ==> !IsAsciiUpper(r.value[i])
  {
    var lower := ToAsciiLower(address);
    match SplitOnce(lower, '@')
    case None => None
    case Some((local, domain)) =>
      if domain == ForwardDomain && StartsWith(local, ForwardPrefix) then
        var key := TrimStartMatches(local, ForwardPrefix);
        TrimStartMatchesNoPrefix(local, ForwardPrefix);
        SuffixOfLocalPart(lower, local, domain, key);
        Some(key)
      else
        None
  }

  /** A suffix of the local part of a lower-case address has neither `@` nor upper case. */
  lemma SuffixOfLocalPart(lower: string, local: string, domain: string, key: string)
    requires forall i :: 0 <= i < |lower| ==> !IsAsciiUpper(lower[i])
    requires lower == local + ['@'] + domain && '@' !in local
    requires |key| <= |local| && key == local[|local| - |key|..]
    ensures '@' !in key
    ensures forall i :: 0 <= i < |key| ==> !IsAsciiUpper(key[i])
  {
    forall i | 0 <= i < |key| ensures key[i] == lower[|local| - |key| + i] && key[i] != '@' {
      assert key[i] == local[|local| - |key| + i];
    }
  }

  /** An address is accepted exactly when, lower-cased, it is a local part free of `@` that
      starts with the forwarding prefix, followed by `@` and the service's domain; the key
      is that local part with every leading copy of the prefix removed. */
  lemma ParseForwardKeyAccepts(address: string, local: string)
    requires '@' !in local
    ensures ToAsciiLower(address) == local + "@" + ForwardDomain ==>
      ParseForwardKey(address) ==
        if StartsWith(local, ForwardPrefix) then Some(TrimStartMatches(local, ForwardPrefix)) else None
  {
    if ToAsciiLower(address) == local + "@" + ForwardDomain {
      IndexOfCharAfter(local, '@', ForwardDomain);
      var lower := ToAsciiLower(address);
      assert lower[..|local|] == local;
      assert lower[|local| + 1..] == ForwardDomain;
    }
  }

  /** Conversely, an accepted address has that shape. */
  lemma ParseForwardKeyShape(address: string)
    ensures ParseForwardKey(address).Some? ==>
      exists local :: '@' !in local && StartsWith(local, ForwardPrefix)
        && ToAsciiLower(address) == local + "@" + ForwardDomain
  {
    var lower := ToAsciiLower(address);
    match SplitOnce(lower, '@')
    case None =>
    case Some((local, domain)) =>
      if ParseForwardKey(address).Some? {
        assert lower == local + "@" + ForwardDomain;
      }
  }

  /** A repeated prefix is stripped entirely: mail to `user-user-<key>@driversheet.com`
      reaches the same mailbox as mail to `user-<key>@driversheet.com`. */
  lemma RepeatedPrefixSameKey(key: string)
    ensures ParseForwardKey(ForwardPrefix + ForwardPrefix + key + "@" + ForwardDomain)
         == ParseForwardKey(ForwardPrefix + key + "@" + ForwardDomain)
  {
    var lk := ToAsciiLower(key);
    var a1 := ForwardPrefix + key + "@" + ForwardDomain;
    var a2 := ForwardPrefix + ForwardPrefix + key + "@" + ForwardDomain;
    LowerWithPrefix(key, ForwardPrefix);
    LowerWithPrefix(key, ForwardPrefix + ForwardPrefix);
    assert a2 == (ForwardPrefix + ForwardPrefix) + key + "@" + ForwardDomain;
    if '@' in lk {
      assert '@' !in ForwardPrefix && '@' !in ForwardPrefix + ForwardPrefix;
      RejectsAtInKey(a1, ForwardPrefix, lk);
      RejectsAtInKey(a2, ForwardPrefix + ForwardPrefix, lk);
    } else {
      BothAccepted(a1, a2, lk);
    }
  }

  /** An `@` inside the key makes the address invalid, whatever lower-case prefix precedes it. */
  lemma RejectsAtInKey(address: string, p: string, lk: string)
    requires '@' !in p && '@' in lk
    requires ToAsciiLower(address) == p + lk + "@" + ForwardDomain
    ensures ParseForwardKey(address).None?
  {
    var i := IndexOfChar(lk, '@').value;
    var a, b := p + lk[..i], lk[i + 1..];
    assert lk == lk[..i] + "@" + b;
    assert p + lk + "@" + ForwardDomain == a + "@" + b + "@" + ForwardDomain;
    RejectsEarlyAt(address, a, b);
  }

  lemma BothAccepted(a1: string, a2: string, lk: string)
    requires '@' !in lk
    requires ToAsciiLower(a1) == ForwardPrefix + lk + "@" + ForwardDomain
    requires ToAsciiLower(a2) == (ForwardPrefix + ForwardPrefix) + lk + "@" + ForwardDomain
    ensures ParseForwardKey(a1) == ParseForwardKey(a2)
  {
    var once := ForwardPrefix + lk;
    var twice := ForwardPrefix + once;
    assert '@' !in ForwardPrefix;
    assert ToAsciiLower(a2) == twice + "@" + ForwardDomain;
    ParseForwardKeyAccepts(a1, once);
    ParseForwardKeyAccepts(a2, twice);
    assert StartsWith(once, ForwardPrefix) && StartsWith(twice, ForwardPrefix);
    assert twice[|ForwardPrefix|..] == once;
  }

  /** Lower-casing `p + key + "@driversheet.com"` for a lower-case `p` lower-cases only the key. */
  lemma LowerWithPrefix(key: string, p: string)
    requires forall i :: 0 <= i < |p| ==> IsAsciiLower(p[i]) || p[i] == '-'
    ensures ToAsciiLower(p + key + "@" + ForwardDomain) == p + ToAsciiLower(key) + "@" + ForwardDomain
  {
    ToAsciiLowerAppend(p, key);
    ToAsciiLowerAppend(p + key, "@" + ForwardDomain);
    ToAsciiLowerKeeps(p);
    ToAsciiLowerKeeps("@" + ForwardDomain);
  }

  /** An address with an `@` before its final `@driversheet.com` is refused: splitting at the
      first `@` leaves a domain longer than the service's. */
  lemma RejectsEarlyAt(address: string, a: string, b: string)
    requires '@' !in a && ToAsciiLower(address) == a + "@" + b + "@" + ForwardDomain
    ensures ParseForwardKey(address).None?
  {
    IndexOfCharAfter(a, '@', b + "@" + ForwardDomain);
    assert ToAsciiLower(address) == a + ['@'] + (b + "@" + ForwardDomain);
  }

  /** Round trip: a user's forwarding address decodes to the user's key whenever the key is
      lower-case, free of `@`, and does not itself start with the forwarding prefix. */
  lemma {:induction false} ParseForwardingAddress(u: User)
    requires '@' !in u.forwardKey && !StartsWith(u.forwardKey, ForwardPrefix)
    requires forall i :: 0 <= i < |u.forwardKey| ==> !IsAsciiUpper(u.forwardKey[i])
    ensures ParseForwardKey(u.ForwardingAddress()) == Some(u.forwardKey)
  {
    var key := u.forwardKey;
    var address := u.ForwardingAddress();
    var local := ForwardPrefix + key;
    assert address == local + "@" + ForwardDomain;
    assert ToAsciiLower(address) == address;
    assert '@' !in local by {
      assert forall i :: 0 <= i < |local| ==> local[i] == (if i < 5 then ForwardPrefix[i] else key[i - 5]);
    }
    ParseForwardKeyAccepts(address, local);
    assert StartsWith(local, ForwardPrefix);
    assert local[|ForwardPrefix|..] == key;
    assert TrimStartMatches(local, ForwardPrefix) == TrimStartMatches(key, ForwardPrefix);
  }

  /** Every key `generate_forward_key` can produce survives the round trip. */
  lemma ParseGeneratedAddress(u: User)
    requires IsForwardKey(u.forwardKey)
    ensures ParseForwardKey(u.ForwardingAddress()) == Some(u.forwardKey)
  {
    assert !IsLowerAlnum('@');
    assert !StartsWith(u.forwardKey, ForwardPrefix) by {
      assert !IsLowerAlnum(ForwardPrefix[4]);
    }
    ParseForwardingAddress(u);
  }

  /** The keys of the valid addresses of a list, in order (invalid ones skipped). */
  function ValidKeys(addresses: seq<string>): (r: seq<string>)
    ensures |r| <= |addresses|
    ensures forall j :: 0 <= j < |r| ==>
      exists i :: 0 <= i < |addresses| && ParseForwardKey(addresses[i]) == Some(r[j])
  {
    if |addresses| == 0 then []
    else
      var init := addresses[..|addresses| - 1];
      var prefix := ValidKeys(init);
      assert forall i :: 0 <= i < |init| ==> init[i] == addresses[i];
      match ParseForwardKey(addresses[|addresses| - 1])
      case None => prefix
      case Some(k) => prefix + [k]
  }

  /** Every valid address contributes its key. */
  lemma {:induction false} ValidKeysComplete(addresses: seq<string>, i: nat)
    requires i < |addresses| && ParseForwardKey(addresses[i]).Some?
    ensures ParseForwardKey(addresses[i]).value in ValidKeys(addresses)
  {
    var init := addresses[..|addresses| - 1];
    if i < |addresses| - 1 {
      assert init[i] == addresses[i];
      ValidKeysComplete(init, i);
    }
  }

  // ---------------------------------------------------------------- MIME search

  const PdfType: string := "application/pdf"

  /** A parsed MIME part: its content type, its decoded body (`None` when
      `get_body_raw` fails) and its subparts. */
  datatype Part = Part(mimetype: string, body: Option<seq<byte>>, subparts: seq<Part>)

  datatype PdfError = PdfNotFound | PdfUnreadable

  function BodyOf(p: Part): Result<seq<byte>, PdfError> {
    match p.body
    case Some(b) => Ok(b)
    case None => Err(PdfUnreadable)
  }

  /** `find_first_pdf`: a childless part is its own answer when it is a PDF; otherwise the
      subparts are tried in order, a PDF subpart answering directly (even when its body
      cannot be read) and any other subpart being searched recursively, its failure
      passing on to the next sibling. */
  function FindFirstPdf(p: Part): Result<seq<byte>, PdfError>
    decreases p, |p.subparts| + 1
  {
    if |p.subparts| == 0 && p.mimetype == PdfType then BodyOf(p)
    else FindInParts(p.subparts, p)
  }

  function FindInParts(parts: seq<Part>, ghost parent: Part): Result<seq<byte>, PdfError>
    requires forall q :: q in parts ==> q in parent.subparts
    decreases parent, |parts|
  {
    if |parts| == 0 then Err(PdfNotFound)
    else if parts[0].mimetype == PdfType then BodyOf(parts[0])
    else
      assert parts[0] in parent.subparts;
      match FindFirstPdf(parts[0])
      case Ok(b) => Ok(b)
      case Err(_) => FindInParts(parts[1..], parent)
  }

  /** The PDF parts the search examines, in the order it examines them: depth first, pre
      order, not descending below a PDF part, and counting the root only when it has no
      subparts. */
  function PdfCandidates(p: Part): seq<Part>
    decreases p, |p.subparts| + 1
  {
    if |p.subparts| == 0 then (if p.mimetype == PdfType then [p] else [])
    else PdfCandidatesIn(p.subparts, p)
  }

  function PdfCandidatesIn(parts: seq<Part>, ghost parent: Part): seq<Part>
    requires forall q :: q in parts ==> q in parent.subparts
    decreases parent, |parts|
  {
    if |parts| == 0 then []
    else
      assert parts[0] in parent.subparts;
      (if parts[0].mimetype == PdfType then [parts[0]] else PdfCandidates(parts[0]))
         + PdfCandidatesIn(parts[1..], parent)
  }

  ghost predicate AllReadable(candidates: seq<Part>) {
    forall i :: 0 <= i < |candidates| ==> candidates[i].body.Some?
  }

  /** When every candidate's body can be read, the search returns the body of the first
      candidate, and fails exactly when there is none. */
  lemma {:induction false} FindFirstPdfIsFirstCandidate(p: Part)
    requires AllReadable(PdfCandidates(p))
    ensures var c := PdfCandidates(p);
      FindFirstPdf(p) == if c == [] then Err(PdfNotFound) else Ok(c[0].body.value)
    decreases p, |p.subparts| + 1
  {
    if |p.subparts| != 0 {
      FindInPartsIsFirstCandidate(p.subparts, p);
    }
  }

  lemma {:induction false} FindInPartsIsFirstCandidate(parts: seq<Part>, parent: Part)
    requires forall q :: q in parts ==> q in parent.subparts
    requires AllReadable(PdfCandidatesIn(parts, parent))
    ensures var c := PdfCandidatesIn(parts, parent);
      FindInParts(parts, parent) == if c == [] then Err(PdfNotFound) else Ok(c[0].body.value)
    decreases parent, |parts|
  {
    if |parts| > 0 {
      var all := PdfCandidatesIn(parts, parent);
      var rest := PdfCandidatesIn(parts[1..], parent);
      if parts[0].mimetype == PdfType {
        assert all[0] == parts[0];
      } else {
        assert parts[0] in parent.subparts;
        var head := PdfCandidates(parts[0]);
        assert all == head + rest;
        assert AllReadable(head) by {
          forall i | 0 <= i < |head| ensures head[i].body.Some? { assert all[i] == head[i]; }
        }
        assert AllReadable(rest) by {
          forall i | 0 <= i < |rest| ensures rest[i].body.Some? { assert all[|head| + i] == rest[i]; }
        }
        FindFirstPdfIsFirstCandidate(parts[0]);
        FindInPartsIsFirstCandidate(parts[1..], parent);
      }
    }
  }

  /** Whatever the bodies, a body the search returns belongs to one of the candidates. */
  lemma {:induction false} FindFirstPdfSound(p: Part)
    ensures FindFirstPdf(p).Ok? ==>
      exists i :: 0 <= i < |PdfCandidates(p)| && PdfCandidates(p)[i].body == Some(FindFirstPdf(p).value)
    decreases p, |p.subparts| + 1
  {
    if |p.subparts| != 0 {
      FindInPartsSound(p.subparts, p);
      if FindFirstPdf(p).Ok? {
        var c := PdfCandidatesIn(p.subparts, p);
        var i :| 0 <= i < |c| && c[i].body == Some(FindInParts(p.subparts, p).value);
        assert PdfCandidates(p)[i] == c[i];
      }
    } else if p.mimetype == PdfType {
      if p.body.Some? {
        assert PdfCandidates(p)[0].body == Some(FindFirstPdf(p).value);
      }
    } else {
      assert FindFirstPdf(p) == FindInParts([], p);
    }
  }

  lemma {:induction false} FindInPartsSound(parts: seq<Part>, parent: Part)
    requires forall q :: q in parts ==> q in parent.subparts
    ensures var r := FindInParts(parts, parent); var c := PdfCandidatesIn(parts, parent);
      r.Ok? ==> exists i :: 0 <= i < |c| && c[i].body == Some(r.value)
    decreases parent, |parts|
  {
    if |parts| > 0 {
      var r := FindInParts(parts, parent);
      var all := PdfCandidatesIn(parts, parent);
      var rest := PdfCandidatesIn(parts[1..], parent);
      if parts[0].mimetype == PdfType {
        assert all == [parts[0]] + rest;
        assert r == BodyOf(parts[0]);
        if r.Ok? {
          assert all[0] == parts[0];
          assert parts[0].body == Some(r.value);
          assert PdfCandidatesIn(parts, parent)[0].body == Some(FindInParts(parts, parent).value);
        }
      } else {
        assert parts[0] in parent.subparts;
        var head := PdfCandidates(parts[0]);
        assert all == head + rest;
        FindFirstPdfSound(parts[0]);
        FindInPartsSound(parts[1..], parent);
        if FindFirstPdf(parts[0]).Ok? {
          assert r == FindFirstPdf(parts[0]);
          var i :| 0 <= i < |head| && head[i].body == Some(r.value);
          assert 0 <= i < |all|;
          assert all[i].body == Some(r.value);
          assert PdfCandidatesIn(parts, parent)[i].body == Some(FindInParts(parts, parent).value);
        } else if r.Ok? {
          assert r == FindInParts(parts[1..], parent);
          var i :| 0 <= i < |rest| && rest[i].body == Some(r.value);
          assert all[|head| + i].body == Some(r.value);
          assert PdfCandidatesIn(parts, parent)[|head| + i].body == Some(FindInParts(parts, parent).value);
        }
      }
    }
  }

  /** With no PDF part to examine the search fails with "not found". */
  lemma FindFirstPdfNone(p: Part)
    requires PdfCandidates(p) == []
    ensures FindFirstPdf(p) == Err(PdfNotFound)
  {
    FindFirstPdfIsFirstCandidate(p);
  }

  // ---------------------------------------------------------------- payout text

  /** What the four regular-expression captures of `parse_text` found in the PDF text
      (amounts in cents, mileage in hundredths of a mile); the regex engine, the float
      parsing and the date parsing are not modelled. */
  datatype Captures = Captures(gross: Option<Cents>, tips: Option<Cents>, mileage: Option<int>, date: Option<Date>)

  datatype TextError = GrossNotFound | TipsNotFound | DateNotFound

  datatype Payout = Payout(date: Date, gross: Cents, tips: Cents, mileage: Option<int>)

  /** `parse_text`: gross, tips and date are required, in that order of checking; mileage
      is optional. */
  function ParseText(c: Captures): (r: Result<Payout, TextError>)
    ensures r.Ok? <==> c.gross.Some? && c.tips.Some? && c.date.Some?
    ensures r.Ok? ==> r.value == Payout(c.date.value, c.gross.value, c.tips.value, c.mileage)
    ensures r == Err(GrossNotFound) <==> c.gross.None?
    ensures r == Err(TipsNotFound) <==> c.gross.Some? && c.tips.None?
  {
    if c.gross.None? then Err(GrossNotFound)
    else if c.tips.None? then Err(TipsNotFound)
    else if c.date.None? then Err(DateNotFound)
    else Ok(Payout(c.date.value, c.gross.value, c.tips.value, c.mileage))
  }

  // ---------------------------------------------------------------- one message

  datatype MailError = MailUnparsable | NoPdfAttachment | TextIncomplete(e: TextError)

  /** The result of `process_message` and the log row it inserts, if any. */
  datatype Processed = Processed(result: Result<(), MailError>, log: Option<NewLogEntry>)

  /** `MailApp::process_message` with the foreign steps as parameters: `parseMail` for
      mailparse, `extractText` for the PDF text extraction, `capture` for the regex
      captures. A recipient with no user, or a PDF whose text cannot be extracted, ends
      the message quietly. */
  function ProcessMessage(users: seq<User>, recipient: string, payload: seq<byte>,
                          parseMail: seq<byte> -> Option<Part>,
                          extractText: seq<byte> -> Option<string>,
                          capture: string -> Captures): (r: Processed)
    ensures r.log.Some? ==> r.result.Ok?
    ensures r.log.Some? ==> exists u :: u in users && u.forwardKey == recipient && r.log.value.userId == u.id
    ensures r.result == Err(MailUnparsable) <==> parseMail(payload).None?
    ensures r.result == Err(NoPdfAttachment) <==>
      parseMail(payload).Some? && RowWhere(users, ByForwardKey(recipient)).Some?
      && FindFirstPdf(parseMail(payload).value).Err?
    ensures r.log.Some? <==>
      parseMail(payload).Some? && RowWhere(users, ByForwardKey(recipient)).Some?
      && FindFirstPdf(parseMail(payload).value).Ok?
      && extractText(FindFirstPdf(parseMail(payload).value).value).Some?
      && ParseText(capture(extractText(FindFirstPdf(parseMail(payload).value).value).value)).Ok?
    ensures r.log.Some? ==>
      var user := RowWhere(users, ByForwardKey(recipient)).value;
      var p := ParseText(capture(extractText(FindFirstPdf(parseMail(payload).value).value).value)).value;
      r.log.value == NewLogEntry(user.id, p.date, p.gross, p.tips, p.mileage)
    ensures r.result.Err? && r.result.error.TextIncomplete? <==>
      parseMail(payload).Some? && RowWhere(users, ByForwardKey(recipient)).Some?
      && FindFirstPdf(parseMail(payload).value).Ok?
      && extractText(FindFirstPdf(parseMail(payload).value).value).Some?
      && ParseText(capture(extractText(FindFirstPdf(parseMail(payload).value).value).value)).Err?
    ensures r.result.Err? && r.result.error.TextIncomplete? ==>
      FindFirstPdf(parseMail(payload).value).Ok? && extractText(FindFirstPdf(parseMail(payload).value).value).Some?
      && ParseText(capture(extractText(FindFirstPdf(parseMail(payload).value).value).value)) == Err(r.result.error.e)
  {
    match parseMail(payload)
    case None => Processed(Err(MailUnparsable), None)
    case Some(mail) =>
      match RowWhere(users, ByForwardKey(recipient))
      case None => Processed(Ok(()), None)
      case Some(user) =>
        match FindFirstPdf(mail)
        case Err(_) => Processed(Err(NoPdfAttachment), None)
        case Ok(pdf) =>
          match extractText(pdf)
          case None => Processed(Ok(()), None)
          case Some(text) =>
            match ParseText(capture(text))
            case Err(e) => Processed(Err(TextIncomplete(e)), None)
            case Ok(p) => Processed(Ok(()), Some(NewLogEntry(user.id, p.date, p.gross, p.tips, p.mileage)))
  }

  /** End to end: mail sent to a user's forwarding address, whose first PDF yields a text
      with gross, tips and date, produces a log row for that user carrying those amounts. */
  lemma DeliveryToUser(users: seq<User>, u: User, payload: seq<byte>,
                       parseMail: seq<byte> -> Option<Part>,
                       extractText: seq<byte> -> Option<string>,
                       capture: string -> Captures)
    requires Distinct(users) && u in users && IsForwardKey(u.forwardKey)
    requires parseMail(payload).Some?
    requires FindFirstPdf(parseMail(payload).value).Ok?
    requires extractText(FindFirstPdf(parseMail(payload).value).value).Some?
    ensures var key := ParseForwardKey(u.ForwardingAddress());
      var c := capture(extractText(FindFirstPdf(parseMail(payload).value).value).value);
      var r := ProcessMessage(users, u.forwardKey, payload, parseMail, extractText, capture);
      && key == Some(u.forwardKey)
      && (r.log.Some? <==> ParseText(c).Ok?)
      && (r.log.Some? ==> r.log.value == NewLogEntry(u.id, c.date.value, c.gross.value, c.tips.value, c.mileage))
  {
    ParseGeneratedAddress(u);
    var found := RowWhere(users, ByForwardKey(u.forwardKey));
    assert found == Some(u) by {
      var v := found.value;
      var i :| 0 <= i < |users| && users[i] == u;
      var j :| 0 <= j < |users| && users[j] == v;
      assert !(i < j) && !(j < i);
    }
  }

  // ---------------------------------------------------------------- the SMTP session

  /** The SMTP replies the handler gives: `response::OK` and `response::NO_MAILBOX`. */
  datatype Response = OkReply | NoMailbox

  /** The per-connection state of `MailApp`: the recipients accepted so far and the
      message bytes received so far. */
  class MailApp {
    const db: Database
    var recipients: seq<string>
    var buffer: seq<byte>

    constructor (db: Database)
      ensures this.db == db && recipients == [] && buffer == []
    {
      this.db := db;
      recipients, buffer := [], [];
    }

    /** `mail`: a new envelope clears both recipients and buffer. */
    method Mail() returns (resp: Response)
      modifies this
      ensures resp == OkReply && recipients == [] && buffer == []
    {
      recipients := [];
      buffer := [];
      resp := OkReply;
    }

    /** `rcpt`: accepts and records a forwarding address, refuses anything else. */
    method Rcpt(to: string) returns (resp: Response)
      modifies this
      ensures buffer == old(buffer)
      ensures ParseForwardKey(to).Some? ==>
        resp == OkReply && recipients == old(recipients) + [ParseForwardKey(to).value]
      ensures ParseForwardKey(to).None? ==> resp == NoMailbox && recipients == old(recipients)
    {
      var key := ParseForwardKey(to);
      if key.Some? {
        recipients := recipients + [key.value];
        resp := OkReply;
      } else {
        resp := NoMailbox;
      }
    }

    /** `data_start`: if no RCPT was accepted, take the keys of the valid envelope
        addresses, in order. */
    method DataStart(to: seq<string>) returns (resp: Response)
      modifies this
      ensures resp == OkReply && buffer == old(buffer)
      ensures recipients == if old(recipients) == [] then ValidKeys(to) else old(recipients)
    {
      if recipients == [] {
        var i := 0;
        while i < |to|
          invariant 0 <= i <= |to|
          invariant recipients == ValidKeys(to[..i])
          invariant buffer == old(buffer)
        {
          assert to[..i + 1][..i] == to[..i];
          var key := ParseForwardKey(to[i]);
          if key.Some? {
            recipients := recipients + [key.value];
          }
          i := i + 1;
        }
        assert to[..|to|] == to;
      }
      resp := OkReply;
    }

    /** `data`: appends a chunk of the message. */
    method Data(chunk: seq<byte>)
      modifies this
      ensures buffer == old(buffer) + chunk && recipients == old(recipients)
    {
      buffer := buffer + chunk;
    }

    /** `data_end`: processes the message for the first recipient only, taking the buffer;
        with no recipient the buffer is kept. Either way the recipients are cleared and the
        reply is OK. */
    method DataEnd(parseMail: seq<byte> -> Option<Part>,
                   extractText: seq<byte> -> Option<string>,
                   capture: string -> Captures,
                   now: Millis) returns (resp: Response)
      requires db.Valid()
      modifies this, db
      ensures resp == OkReply && recipients == [] && db.Valid()
      ensures db.users == old(db.users)
      ensures old(recipients) == [] ==> buffer == old(buffer) && db.logs == old(db.logs)
      ensures old(recipients) != [] ==> buffer == []
      ensures old(recipients) != [] ==>
        var p := ProcessMessage(old(db.users), old(recipients)[0], old(buffer), parseMail, extractText, capture);
        db.logs == old(db.logs) + (match p.log
          case None => []
          case Some(e) => [LogEntry(old(db.nextLogId), e.userId, e.orderDate, e.gross, e.tips, e.mileage, now)])
    {
      if |recipients| > 0 {
        var recipient := recipients[0];
        var payload := buffer;
        buffer := [];
        var p := ProcessMessage(db.users, recipient, payload, parseMail, extractText, capture);
        if p.log.Some? {
          var row := db.InsertLog(p.log.value, now);
        }
      }
      recipients := [];
      resp := OkReply;
    }
  }
}
