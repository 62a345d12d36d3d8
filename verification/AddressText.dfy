/** Putting a new address into the four configuration files: texts are lists of lines. */
module AddressText {
  import opened Registry
  import opened Strings

  type Text = seq<string>

  /** An IPv4 address that `address_value` lets through. */
  datatype Address = Address(a: nat, b: nat, c: nat, d: nat)

  predicate Allowed(x: Address) {
    x.a < 256 && x.b < 256 && x.c < 256 && x.d < 256
    && (x.a == 127 || x.a == 10 || (x.a == 172 && 16 <= x.b <= 31) || (x.a == 192 && x.b == 168))
  }

  function Dotted(x: Address): string { Decimal(x.a) + "." + Decimal(x.b) + "." + Decimal(x.c) + "." + Decimal(x.d) }

  predicate Plain(s: string) { s != "" && forall i :: 0 <= i < |s| ==> s[i] != '\r' }

  lemma {:induction false} DecimalIsPlain(n: nat)
    ensures Plain(Decimal(n))
  {
    if n >= 10 { DecimalIsPlain(n / 10); }
  }

  lemma DottedIsPlain(x: Address)
    ensures Plain(Dotted(x))
  {
    DecimalIsPlain(x.a);
    DecimalIsPlain(x.b);
    DecimalIsPlain(x.c);
    DecimalIsPlain(x.d);
  }

  /** The numbers in a dotted text, read character by character. */
  function Octets(s: string): (o: seq<int>)
    ensures |o| >= 1
  {
    if s == "" then [0]
    else
      var o, c := Octets(s[..|s| - 1]), s[|s| - 1];
      if c == '.' then o + [0] else o[..|o| - 1] + [o[|o| - 1] * 10 + (c as int - '0' as int)]
  }

  lemma {:induction false} OctetsPush(s: string, digits: string)
    requires Octets(s)[|Octets(s)| - 1] == 0 && forall i :: 0 <= i < |digits| ==> IsDigit(digits[i])
    ensures Octets(s + digits) == Octets(s)[..|Octets(s)| - 1] + [Spells(digits)]
  {
    if digits == "" {
      assert s + digits == s;
    } else {
      var front := digits[..|digits| - 1];
      assert (s + digits)[..|s + digits| - 1] == s + front;
      OctetsPush(s, front);
    }
  }

  lemma {:induction false} OctetsDot(s: string)
    ensures Octets(s + ".") == Octets(s) + [0]
  {
    assert (s + ".")[..|s|] == s;
  }

  predicate Digits(s: string) { forall i :: 0 <= i < |s| ==> IsDigit(s[i]) }

  lemma {:induction false} NextOctet(s: string, before: seq<int>, digits: string, t: string, u: string)
    requires Octets(s) == before + [0] && Digits(digits) && t == s + digits && u == t + "."
    ensures Octets(t) == before + [Spells(digits)] && Octets(u) == before + [Spells(digits)] + [0]
  {
    OctetsPush(s, digits);
    OctetsDot(t);
  }

  lemma {:induction false} JoinedReads(a: string, b: string, c: string, d: string, t: string)
    requires Digits(a) && Digits(b) && Digits(c) && Digits(d) && t == a + "." + b + "." + c + "." + d
    ensures Octets(t) == [Spells(a), Spells(b), Spells(c), Spells(d)]
  {
    var t1 := a + ".";
    var t2 := t1 + b + ".";
    var t3 := t2 + c + ".";
    assert "" + a == a && Octets("") == [] + [0];
    NextOctet("", [], a, a, t1);
    NextOctet(t1, [Spells(a)], b, t1 + b, t2);
    NextOctet(t2, [Spells(a), Spells(b)], c, t2 + c, t3);
    NextOctet(t3, [Spells(a), Spells(b), Spells(c)], d, t, t + ".");
  }

  /** The text of an address is its four numbers in order. */
  lemma DottedReads(x: Address)
    ensures Octets(Dotted(x)) == [x.a, x.b, x.c, x.d]
  {
    DecimalSpells(x.a);
    DecimalSpells(x.b);
    DecimalSpells(x.c);
    DecimalSpells(x.d);
    JoinedReads(Decimal(x.a), Decimal(x.b), Decimal(x.c), Decimal(x.d), Dotted(x));
  }

  /** An address as one number of 32 bits. */
  function Number(x: Address): int { ((x.a * 256 + x.b) * 256 + x.c) * 256 + x.d }

  /** The addresses let through are those of the networks 127.0.0.0/8, 10.0.0.0/8, 172.16.0.0/12 and 192.168.0.0/16. */
  lemma AllowedIff(x: Address)
    ensures Allowed(x) <==>
      && x.a <= 255 && x.b <= 255 && x.c <= 255 && x.d <= 255
      && (Number(x) / 0x100_0000 == 127 || Number(x) / 0x100_0000 == 10
          || Number(x) / 0x10_0000 == 172 * 16 + 1 || Number(x) / 0x1_0000 == 192 * 256 + 168)
  {
  }

  // ---------------------------------------------------------------- one replacement

  /** A whole-line pattern: `head`, then at least one character and no carriage return, then `tail`. */
  datatype Pattern = Pattern(head: string, tail: string)

  predicate StartsWith(line: string, head: string) {
    |head| <= |line| && forall i :: 0 <= i < |head| ==> line[i] == head[i]
  }

  predicate Matches(p: Pattern, line: string) {
    && |line| > |p.head| + |p.tail| && StartsWith(line, p.head) && line[|line| - |p.tail|..] == p.tail
    && Plain(line[|p.head|..|line| - |p.tail|])
  }

  /** A line matches exactly when it is the pattern filled with something, not empty and without a carriage return. */
  lemma MatchesIff(p: Pattern, line: string)
    ensures Matches(p, line) <==> exists v :: v != "" && '\r' !in v && line == p.head + v + p.tail
  {
    if Matches(p, line) {
      var v := line[|p.head|..|line| - |p.tail|];
      assert line[..|p.head|] == p.head;
      assert line == p.head + v + p.tail && v != "" && '\r' !in v;
    }
    forall v | v != "" && '\r' !in v && line == p.head + v + p.tail ensures Matches(p, line) {
      assert Plain(v);
      FilledMatches(p, v);
    }
  }

  function Filled(p: Pattern, value: string): string { p.head + value + p.tail }

  lemma FilledMatches(p: Pattern, value: string)
    requires Plain(value)
    ensures Matches(p, Filled(p, value))
  {
    var line := Filled(p, value);
    assert line[|line| - |p.tail|..] == p.tail;
    assert line[|p.head|..|line| - |p.tail|] == value;
  }

  function Hits(p: Pattern, t: Text): nat {
    if t == [] then 0 else Hits(p, t[1..]) + if Matches(p, t[0]) then 1 else 0
  }

  /** `re.subn` */
  function Put(p: Pattern, t: Text, value: string): Text {
    seq(|t|, i requires 0 <= i < |t| => if Matches(p, t[i]) then Filled(p, value) else t[i])
  }

  /** `replace_one` */
  function ReplaceOne(p: Pattern, t: Text, value: string): Option<Text> {
    if Hits(p, t) == 1 then Some(Put(p, t, value)) else None
  }

  /** Filling is idempotent up to the last value, and keeps the count. */
  lemma PutTwice(p: Pattern, t: Text, a: string, b: string)
    requires Plain(a)
    ensures Put(p, Put(p, t, a), b) == Put(p, t, b)
  {
    FilledMatches(p, a);
  }

  lemma {:induction false} PutHits(p: Pattern, q: Pattern, t: Text, a: string)
    requires Plain(a)
    requires p == q || (!Matches(q, Filled(p, a)) && forall line :: Matches(p, line) ==> !Matches(q, line))
    ensures Hits(q, Put(p, t, a)) == Hits(q, t)
  {
    FilledMatches(p, a);
    if t != [] {
      PutHits(p, q, t[1..], a);
      assert Put(p, t, a)[1..] == Put(p, t[1..], a);
    }
  }

  /** No line is matched by both. */
  ghost predicate Disjoint(p: Pattern, q: Pattern) { forall line :: !(Matches(p, line) && Matches(q, line)) }

  lemma HeadsApart(p: Pattern, q: Pattern, i: nat)
    requires i < |p.head| && i < |q.head| && p.head[i] != q.head[i]
    ensures Disjoint(p, q)
  {
  }

  lemma PutCommutes(p: Pattern, q: Pattern, t: Text, a: string, b: string)
    requires Plain(a) && Plain(b) && Disjoint(p, q)
    ensures Put(q, Put(p, t, a), b) == Put(p, Put(q, t, b), a)
  {
    FilledMatches(p, a);
    FilledMatches(q, b);
  }

  // ---------------------------------------------------------------- the older template

  const DIRECT := "direct_media=no"

  function DirectHits(t: Text): nat { if t == [] then 0 else DirectHits(t[1..]) + if t[0] == DIRECT then 1 else 0 }

  /** The media address goes on a line of its own after `direct_media=no`. */
  function Insert(t: Text, value: string): Text {
    if t == [] then []
    else if t[0] == DIRECT then [DIRECT, Filled(MEDIA, value)] + Insert(t[1..], value)
    else [t[0]] + Insert(t[1..], value)
  }

  predicate HasMedia(t: Text) { exists i :: 0 <= i < |t| && StartsWith(t[i], MEDIA.head) }

  // ---------------------------------------------------------------- the four files

  const SIGNALING := Pattern("external_signaling_address=", "")
  const EXTERNAL := Pattern("external_media_address=", "")
  const MEDIA := Pattern("media_address=", "")
  const EXPORTED := Pattern("export SIP_LAB_BIND_ADDRESS=", "")
  const BOUND := Pattern("SIP_LAB_BIND_ADDRESS=", "")
  const IDENTITY := Pattern("SIP identity: sip:1001@", "")
  const SERVER := Pattern("Server: sip:", ":5060")

  datatype Files = Files(sip: Text, lab: Text, compose: Text, account: Text)

  function AndThen(t: Option<Text>, p: Pattern, value: string): Option<Text> {
    if t.None? then None else ReplaceOne(p, t.value, value)
  }

  function ReviseSip(t: Text, value: string): Option<Text> {
    match AndThen(ReplaceOne(SIGNALING, t, value), EXTERNAL, value)
    case None => None
    case Some(u) =>
      if HasMedia(u) then ReplaceOne(MEDIA, u, value)
      else if DirectHits(u) == 1 then Some(Insert(u, value)) else None
  }

  /** `revised_contents` */
  function Revise(f: Files, value: string): Option<Files> {
    match (ReviseSip(f.sip, value), ReplaceOne(EXPORTED, f.lab, value), ReplaceOne(BOUND, f.compose, value),
           AndThen(ReplaceOne(IDENTITY, f.account, value), SERVER, value))
    case (Some(sip), Some(lab), Some(compose), Some(account)) => Some(Files(sip, lab, compose, account))
    case _ => None
  }

  lemma PatternsApart()
    ensures Disjoint(SIGNALING, EXTERNAL) && Disjoint(SIGNALING, MEDIA) && Disjoint(EXTERNAL, MEDIA)
        && Disjoint(IDENTITY, SERVER)
  {
    HeadsApart(SIGNALING, EXTERNAL, 9);
    HeadsApart(SIGNALING, MEDIA, 0);
    HeadsApart(EXTERNAL, MEDIA, 0);
    HeadsApart(IDENTITY, SERVER, 1);
  }

  lemma HitsKept(p: Pattern, q: Pattern, t: Text, a: string)
    requires Plain(a) && (p == q || Disjoint(p, q))
    ensures Hits(q, Put(p, t, a)) == Hits(q, t)
  {
    FilledMatches(p, a);
    PutHits(p, q, t, a);
  }

  /** Two fields in one file: the second revision overwrites the first, and succeeds exactly when it would
      have without it. */
  lemma TwoFields(p: Pattern, q: Pattern, t: Text, a: string, b: string)
    requires Plain(a) && Plain(b) && Disjoint(p, q)
    requires AndThen(ReplaceOne(p, t, a), q, a).Some?
    ensures var u := AndThen(ReplaceOne(p, t, a), q, a).value;
      AndThen(ReplaceOne(p, u, b), q, b) == AndThen(ReplaceOne(p, t, b), q, b)
          && AndThen(ReplaceOne(p, t, b), q, b).Some?
      && u == Put(q, Put(p, t, a), a)
  {
    var u := AndThen(ReplaceOne(p, t, a), q, a).value;
    HitsKept(p, q, t, a);
    HitsKept(p, q, t, b);
    HitsKept(p, p, t, a);
    HitsKept(q, p, Put(p, t, a), a);
    HitsKept(p, q, u, b);
    HitsKept(q, q, Put(p, t, a), a);
    PutCommutes(p, q, t, a, a);
    PutCommutes(q, p, Put(p, t, a), a, b);
    PutTwice(p, t, a, b);
    PutTwice(q, Put(p, t, b), a, b);
  }

  lemma PutKeepsMedia(p: Pattern, t: Text, a: string)
    requires p.head != "" && p.head[0] != 'm'
    ensures HasMedia(Put(p, t, a)) <==> HasMedia(t)
  {
    var u := Put(p, t, a);
    forall i | 0 <= i < |t| ensures StartsWith(u[i], MEDIA.head) <==> StartsWith(t[i], MEDIA.head) {
      assert Matches(p, t[i]) ==> u[i][0] == p.head[0];
    }
  }

  lemma MediaIsFound(t: Text, a: string)
    requires HasMedia(t)
    ensures HasMedia(Put(MEDIA, t, a))
  {
    var i :| 0 <= i < |t| && StartsWith(t[i], MEDIA.head);
    assert StartsWith(Put(MEDIA, t, a)[i], MEDIA.head);
  }

  predicate NotDirect(p: Pattern) { p.head != "" && p.head[0] != 'd' }

  lemma DirectIsNoField(p: Pattern, a: string)
    requires NotDirect(p)
    ensures !Matches(p, DIRECT) && Filled(p, a) != DIRECT
  {
    assert Filled(p, a)[0] == p.head[0];
  }

  lemma {:induction false} PutKeepsDirect(p: Pattern, t: Text, a: string)
    requires NotDirect(p)
    ensures DirectHits(Put(p, t, a)) == DirectHits(t)
  {
    DirectIsNoField(p, a);
    if t != [] {
      PutKeepsDirect(p, t[1..], a);
      assert Put(p, t, a)[1..] == Put(p, t[1..], a);
    }
  }

  /** An inserted line is none of the other fields, so insertion and filling commute. */
  lemma {:induction false} InsertCommutes(p: Pattern, t: Text, a: string, b: string)
    requires NotDirect(p) && Disjoint(p, MEDIA) && Plain(a)
    ensures Put(p, Insert(t, a), b) == Insert(Put(p, t, b), a) && Hits(p, Insert(t, a)) == Hits(p, t)
  {
    DirectIsNoField(p, b);
    FilledMatches(MEDIA, a);
    if t != [] {
      InsertCommutes(p, t[1..], a, b);
      assert Put(p, t, b)[1..] == Put(p, t[1..], b);
      InsertFront(p, t, a, b);
    }
  }

  /** What filling makes of one line. */
  function One(p: Pattern, line: string, b: string): string { if Matches(p, line) then Filled(p, b) else line }

  lemma PutFirst(p: Pattern, line: string, rest: Text, b: string)
    ensures Put(p, [line] + rest, b) == [One(p, line, b)] + Put(p, rest, b)
    ensures Hits(p, [line] + rest) == Hits(p, rest) + if Matches(p, line) then 1 else 0
  {
    assert ([line] + rest)[1..] == rest;
  }

  lemma PutTwo(p: Pattern, first: string, second: string, rest: Text, b: string)
    requires !Matches(p, first)
    ensures Put(p, [first, second] + rest, b) == [first, One(p, second, b)] + Put(p, rest, b)
    ensures Hits(p, [first, second] + rest) == Hits(p, rest) + if Matches(p, second) then 1 else 0
  {
    PutFirst(p, first, [second] + rest, b);
    PutFirst(p, second, rest, b);
    assert [first, second] + rest == [first] + ([second] + rest);
  }

  lemma InsertFront(p: Pattern, t: Text, a: string, b: string)
    requires t != [] && !Matches(p, DIRECT)
    ensures Put(p, Insert(t, a), b) ==
      (if t[0] == DIRECT then [DIRECT, One(p, Filled(MEDIA, a), b)] else [One(p, t[0], b)])
          + Put(p, Insert(t[1..], a), b)
    ensures Hits(p, Insert(t, a)) == Hits(p, Insert(t[1..], a))
      + if t[0] == DIRECT then (if Matches(p, Filled(MEDIA, a)) then 1 else 0) else (if Matches(p, t[0]) then 1 else 0)
  {
    if t[0] == DIRECT {
      PutTwo(p, DIRECT, Filled(MEDIA, a), Insert(t[1..], a), b);
    } else {
      PutFirst(p, t[0], Insert(t[1..], a), b);
    }
  }

  lemma NoMediaTail(t: Text)
    requires !HasMedia(t) && t != []
    ensures !HasMedia(t[1..]) && !Matches(MEDIA, t[0])
  {
    assert forall i :: 0 <= i < |t[1..]| ==> t[1..][i] == t[i + 1];
  }

  /** Once inserted, the line is an ordinary field: filling it is inserting the other value. */
  lemma {:induction false} InsertedIsAField(t: Text, a: string, b: string)
    requires !HasMedia(t) && Plain(a)
    ensures Put(MEDIA, Insert(t, a), b) == Insert(t, b) && Hits(MEDIA, Insert(t, a)) == DirectHits(t)
  {
    FilledMatches(MEDIA, a);
    DirectIsNoField(MEDIA, a);
    if t != [] {
      NoMediaTail(t);
      InsertedIsAField(t[1..], a, b);
      InsertFront(MEDIA, t, a, b);
    }
  }

  lemma {:induction false} InsertHasMedia(t: Text, a: string)
    requires DirectHits(t) > 0
    ensures HasMedia(Insert(t, a))
  {
    var u := Insert(t, a);
    if t[0] == DIRECT {
      assert StartsWith(u[1], MEDIA.head);
    } else {
      InsertHasMedia(t[1..], a);
      var i :| 0 <= i < |Insert(t[1..], a)| && StartsWith(Insert(t[1..], a)[i], MEDIA.head);
      assert u[i + 1] == Insert(t[1..], a)[i];
    }
  }

  // ---------------------------------------------------------------- revising twice

  /** What the first two fields do to a file whose media line was already set, or inserted. */
  lemma FieldsPassMedia(u: Text, a: string, b: string)
    requires Plain(a) && Plain(b) && AndThen(ReplaceOne(SIGNALING, u, b), EXTERNAL, b).Some?
    ensures AndThen(ReplaceOne(SIGNALING, Put(MEDIA, u, a), b), EXTERNAL, b)
      == Some(Put(MEDIA, AndThen(ReplaceOne(SIGNALING, u, b), EXTERNAL, b).value, a))
    ensures AndThen(ReplaceOne(SIGNALING, Insert(u, a), b), EXTERNAL, b)
      == Some(Insert(AndThen(ReplaceOne(SIGNALING, u, b), EXTERNAL, b).value, a))
  {
    PatternsApart();
    var v := Put(SIGNALING, u, b);
    HitsKept(MEDIA, SIGNALING, u, a);
    PutCommutes(MEDIA, SIGNALING, u, a, b);
    HitsKept(MEDIA, EXTERNAL, v, a);
    PutCommutes(MEDIA, EXTERNAL, v, a, b);
    InsertCommutes(SIGNALING, u, a, b);
    InsertCommutes(EXTERNAL, v, a, b);
  }

  lemma FieldsKeepShape(t: Text, a: string)
    requires Plain(a)
    ensures var u := Put(EXTERNAL, Put(SIGNALING, t, a), a);
      (HasMedia(u) <==> HasMedia(t)) && DirectHits(u) == DirectHits(t) && Hits(MEDIA, u) == Hits(MEDIA, t)
  {
    PatternsApart();
    PutKeepsMedia(SIGNALING, t, a);
    PutKeepsMedia(EXTERNAL, Put(SIGNALING, t, a), a);
    PutKeepsDirect(SIGNALING, t, a);
    PutKeepsDirect(EXTERNAL, Put(SIGNALING, t, a), a);
    HitsKept(SIGNALING, MEDIA, t, a);
    HitsKept(EXTERNAL, MEDIA, Put(SIGNALING, t, a), a);
  }

  lemma ReviseSipTwice(t: Text, a: string, b: string)
    requires Plain(a) && Plain(b) && ReviseSip(t, a).Some?
    ensures ReviseSip(t, b).Some? && ReviseSip(ReviseSip(t, a).value, b) == ReviseSip(t, b)
  {
    PatternsApart();
    TwoFields(SIGNALING, EXTERNAL, t, a, b);
    FieldsKeepShape(t, a);
    FieldsKeepShape(t, b);
    var u := AndThen(ReplaceOne(SIGNALING, t, a), EXTERNAL, a).value;
    var w := AndThen(ReplaceOne(SIGNALING, t, b), EXTERNAL, b).value;
    FieldsPassMedia(u, a, b);
    if HasMedia(u) {
      MediaIsFound(w, a);
      HitsKept(MEDIA, MEDIA, w, a);
      PutTwice(MEDIA, w, a, b);
    } else {
      InsertHasMedia(w, a);
      InsertedIsAField(w, a, b);
    }
  }

  /** Revising to one address and then to another is revising straight to the second, and whether a
      revision succeeds does not depend on the address. */
  lemma ReviseTwice(f: Files, x: Address, y: Address)
    requires Revise(f, Dotted(x)).Some?
    ensures Revise(f, Dotted(y)).Some? && Revise(Revise(f, Dotted(x)).value, Dotted(y)) == Revise(f, Dotted(y))
  {
    var a, b := Dotted(x), Dotted(y);
    DottedIsPlain(x);
    DottedIsPlain(y);
    PatternsApart();
    ReviseSipTwice(f.sip, a, b);
    HitsKept(EXPORTED, EXPORTED, f.lab, a);
    PutTwice(EXPORTED, f.lab, a, b);
    HitsKept(BOUND, BOUND, f.compose, a);
    PutTwice(BOUND, f.compose, a, b);
    TwoFields(IDENTITY, SERVER, f.account, a, b);
  }

  // ---------------------------------------------------------------- all other lines

  predicate IsField(ps: seq<Pattern>, line: string) { exists p :: p in ps && Matches(p, line) }

  /** The lines that are none of the address fields, in order. */
  function Others(ps: seq<Pattern>, t: Text): Text {
    if t == [] then [] else (if IsField(ps, t[0]) then [] else [t[0]]) + Others(ps, t[1..])
  }

  lemma {:induction false} PutLeavesOthers(ps: seq<Pattern>, p: Pattern, t: Text, a: string)
    requires p in ps && Plain(a)
    ensures Others(ps, Put(p, t, a)) == Others(ps, t)
  {
    FilledMatches(p, a);
    if t != [] {
      PutLeavesOthers(ps, p, t[1..], a);
      assert Put(p, t, a)[1..] == Put(p, t[1..], a);
    }
  }

  lemma {:induction false} InsertLeavesOthers(ps: seq<Pattern>, t: Text, a: string)
    requires MEDIA in ps && Plain(a) && !IsField(ps, DIRECT)
    ensures Others(ps, Insert(t, a)) == Others(ps, t)
  {
    FilledMatches(MEDIA, a);
    if t != [] {
      InsertLeavesOthers(ps, t[1..], a);
      var u := Insert(t, a);
      if t[0] == DIRECT {
        assert u[1..][0] == Filled(MEDIA, a) && u[1..][1..] == Insert(t[1..], a);
      } else {
        assert u[1..] == Insert(t[1..], a);
      }
    }
  }

  const SIP_FIELDS := [SIGNALING, EXTERNAL, MEDIA]
  const ACCOUNT_FIELDS := [IDENTITY, SERVER]

  /** A revision leaves every line that is not an address field alone, in each of the four files. */
  lemma RevisionLeavesOthers(f: Files, x: Address)
    requires Revise(f, Dotted(x)).Some?
    ensures var g := Revise(f, Dotted(x)).value;
      && Others(SIP_FIELDS, g.sip) == Others(SIP_FIELDS, f.sip)
      && Others([EXPORTED], g.lab) == Others([EXPORTED], f.lab)
      && Others([BOUND], g.compose) == Others([BOUND], f.compose)
      && Others(ACCOUNT_FIELDS, g.account) == Others(ACCOUNT_FIELDS, f.account)
  {
    var a := Dotted(x);
    DottedIsPlain(x);
    PutLeavesOthers([EXPORTED], EXPORTED, f.lab, a);
    PutLeavesOthers([BOUND], BOUND, f.compose, a);
    PutLeavesOthers(ACCOUNT_FIELDS, IDENTITY, f.account, a);
    PutLeavesOthers(ACCOUNT_FIELDS, SERVER, Put(IDENTITY, f.account, a), a);
    SipLeavesOthers(f.sip, a);
  }

  lemma SipLeavesOthers(t: Text, a: string)
    requires Plain(a) && ReviseSip(t, a).Some?
    ensures Others(SIP_FIELDS, ReviseSip(t, a).value) == Others(SIP_FIELDS, t)
  {
    var u := Put(SIGNALING, t, a);
    var v := Put(EXTERNAL, u, a);
    PutLeavesOthers(SIP_FIELDS, SIGNALING, t, a);
    PutLeavesOthers(SIP_FIELDS, EXTERNAL, u, a);
    PutLeavesOthers(SIP_FIELDS, MEDIA, v, a);
    assert SIP_FIELDS[0].head[0] == 'e' && SIP_FIELDS[1].head[0] == 'e' && SIP_FIELDS[2].head[0] == 'm';
    forall p | p in SIP_FIELDS ensures !Matches(p, DIRECT) { DirectIsNoField(p, a); }
    InsertLeavesOthers(SIP_FIELDS, v, a);
  }

  // ---------------------------------------------------------------- what a revision shows

  lemma {:induction false} HitLine(p: Pattern, t: Text) returns (i: nat)
    requires Hits(p, t) > 0
    ensures i < |t| && Matches(p, t[i])
  {
    if Matches(p, t[0]) {
      i := 0;
    } else {
      var j := HitLine(p, t[1..]);
      i := j + 1;
    }
  }

  lemma PutShows(p: Pattern, t: Text, value: string)
    requires Hits(p, t) > 0
    ensures Filled(p, value) in Put(p, t, value)
  {
    var i := HitLine(p, t);
    assert Put(p, t, value)[i] == Filled(p, value);
  }

  /** A line that matches no other pattern survives filling it. */
  lemma PutKeepsLine(p: Pattern, t: Text, value: string, line: string)
    requires line in t && !Matches(p, line)
    ensures line in Put(p, t, value)
  {
    var i :| 0 <= i < |t| && t[i] == line;
    assert Put(p, t, value)[i] == line;
  }

  lemma {:induction false} InsertKeepsLine(t: Text, value: string, line: string)
    requires line in t
    ensures line in Insert(t, value)
  {
    if line != t[0] { InsertKeepsLine(t[1..], value, line); }
  }

  lemma {:induction false} InsertShows(t: Text, value: string)
    requires DirectHits(t) > 0
    ensures Filled(MEDIA, value) in Insert(t, value)
  {
    if t[0] != DIRECT { InsertShows(t[1..], value); }
  }

  /** The new line comes right after the one line `direct_media=no`. */
  lemma {:induction false} InsertIs(before: Text, after: Text, value: string)
    requires "direct_media=no" !in before && "direct_media=no" !in after
    ensures Insert(before + ["direct_media=no"] + after, value)
      == before + ["direct_media=no", "media_address=" + value] + after
  {
    var t := before + ["direct_media=no"] + after;
    if before == [] {
      assert t[1..] == after;
      InsertNothing(after, value);
      assert Filled(MEDIA, value) == "media_address=" + value;
    } else {
      assert t[1..] == before[1..] + ["direct_media=no"] + after;
      InsertIs(before[1..], after, value);
      assert before == [before[0]] + before[1..];
    }
  }

  lemma {:induction false} InsertNothing(t: Text, value: string)
    requires DIRECT !in t
    ensures Insert(t, value) == t
  {
    if t != [] {
      InsertNothing(t[1..], value);
      assert t == [t[0]] + t[1..];
    }
  }

  lemma SipShows(t: Text, a: string)
    requires Plain(a) && ReviseSip(t, a).Some?
    ensures var u := ReviseSip(t, a).value;
      "external_signaling_address=" + a in u && "external_media_address=" + a in u && "media_address=" + a in u
  {
    PatternsApart();
    FilledMatches(SIGNALING, a);
    FilledMatches(EXTERNAL, a);
    var u := Put(SIGNALING, t, a);
    var v := Put(EXTERNAL, u, a);
    PutShows(SIGNALING, t, a);
    PutKeepsLine(EXTERNAL, u, a, Filled(SIGNALING, a));
    PutShows(EXTERNAL, u, a);
    if HasMedia(v) {
      PutShows(MEDIA, v, a);
      PutKeepsLine(MEDIA, v, a, Filled(SIGNALING, a));
      PutKeepsLine(MEDIA, v, a, Filled(EXTERNAL, a));
    } else {
      InsertShows(v, a);
      InsertKeepsLine(v, a, Filled(SIGNALING, a));
      InsertKeepsLine(v, a, Filled(EXTERNAL, a));
    }
    assert forall p: Pattern :: p.tail == "" ==> Filled(p, a) == p.head + a;
  }

  /** A revision puts the address into each of its seven places. */
  lemma RevisionShows(f: Files, x: Address)
    requires Revise(f, Dotted(x)).Some?
    ensures var a, g := Dotted(x), Revise(f, Dotted(x)).value;
      && "external_signaling_address=" + a in g.sip && "external_media_address=" + a in g.sip
      && "media_address=" + a in g.sip && "export SIP_LAB_BIND_ADDRESS=" + a in g.lab
      && "SIP_LAB_BIND_ADDRESS=" + a in g.compose && "SIP identity: sip:1001@" + a in g.account
      && "Server: sip:" + a + ":5060" in g.account
  {
    var a := Dotted(x);
    DottedIsPlain(x);
    PatternsApart();
    SipShows(f.sip, a);
    PutShows(EXPORTED, f.lab, a);
    PutShows(BOUND, f.compose, a);
    PutShows(IDENTITY, f.account, a);
    FilledMatches(IDENTITY, a);
    PutKeepsLine(SERVER, Put(IDENTITY, f.account, a), a, Filled(IDENTITY, a));
    PutShows(SERVER, Put(IDENTITY, f.account, a), a);
    assert forall p: Pattern :: p.tail == "" ==> Filled(p, a) == p.head + a;
  }

  /** A revision succeeds exactly when each field is on one line of its file; of the media address, it is enough that no
      line begins it and `direct_media=no` is one line. */
  lemma RevisesIff(f: Files, x: Address)
    ensures Revise(f, Dotted(x)).Some? <==>
      && Hits(Pattern("external_signaling_address=", ""), f.sip) == 1
      && Hits(Pattern("external_media_address=", ""), f.sip) == 1
      && (if HasMedia(f.sip) then Hits(Pattern("media_address=", ""), f.sip) == 1 else DirectHits(f.sip) == 1)
      && Hits(Pattern("export SIP_LAB_BIND_ADDRESS=", ""), f.lab) == 1
      && Hits(Pattern("SIP_LAB_BIND_ADDRESS=", ""), f.compose) == 1
      && Hits(Pattern("SIP identity: sip:1001@", ""), f.account) == 1
      && Hits(Pattern("Server: sip:", ":5060"), f.account) == 1
  {
    var a := Dotted(x);
    DottedIsPlain(x);
    PatternsApart();
    HitsKept(SIGNALING, EXTERNAL, f.sip, a);
    FieldsKeepShape(f.sip, a);
    HitsKept(IDENTITY, SERVER, f.account, a);
  }

  /** Counting lines: one more for each that matches, and for each that is `direct_media=no`. */
  lemma {:induction false} HitsAre(p: Pattern, before: Text, line: string)
    ensures Hits(p, []) == 0 && DirectHits([]) == 0
    ensures Hits(p, before + [line]) == Hits(p, before) + if Matches(p, line) then 1 else 0
    ensures DirectHits(before + [line]) == DirectHits(before) + if line == "direct_media=no" then 1 else 0
  {
    if before == [] {
      assert before + [line] == [line] && [line][1..] == [];
    } else {
      assert (before + [line])[1..] == before[1..] + [line];
      HitsAre(p, before[1..], line);
    }
  }
}
