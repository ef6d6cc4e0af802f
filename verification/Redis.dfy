/**
 The Redis notifier (internal/notifier/redis.go): RESP commands written, replies read back.  A `char` stands
 for one byte.  `Decode...` reads commands as the RESP2 sections 'Arrays' and 'Bulk strings' prescribe.
 */
module Redis {
  import opened Common
  import opened Text

  const CRLF := "\r\n"

  // ---- Writing commands ----

  function Bulk(arg: string): string {
    "$" + Decimal(|arg|) + CRLF + arg + CRLF
  }

  function Bulks(args: seq<string>): string {
    if args == [] then "" else Bulk(args[0]) + Bulks(args[1..])
  }

  function Encode(args: seq<string>): string {
    "*" + Decimal(|args|) + CRLF + Bulks(args)
  }

  function EncodeAll(cmds: seq<seq<string>>): string {
    if cmds == [] then "" else Encode(cmds[0]) + EncodeAll(cmds[1..])
  }

  // ---- Reading commands ----

  function LeadingDigits(s: string): (k: nat)
    ensures k <= |s| && AllDigits(s[..k]) && (k < |s| ==> !IsDigit(s[k]))
  {
    if s == "" || !IsDigit(s[0]) then 0 else 1 + LeadingDigits(s[1..])
  }

  /** A type byte, one or more digits, and a line end. */
  function DecodeLength(kind: char, s: string): (r: Option<(nat, string)>)
    ensures r.Some? ==> |r.value.1| < |s|
  {
    if s == "" || s[0] != kind then None else
      var k := LeadingDigits(s[1..]);
      var rest := s[1 + k..];
      if k > 0 && CRLF <= rest then Some((ValueOf(s[1..][..k]), rest[2..])) else None
  }

  function DecodeBulk(s: string): (r: Option<(string, string)>)
    ensures r.Some? ==> |r.value.1| < |s|
  {
    match DecodeLength('$', s)
    case None => None
    case Some((n, rest)) =>
      if |rest| >= n + 2 && rest[n..n + 2] == CRLF then Some((rest[..n], rest[n + 2..])) else None
  }

  /** `count` items in a row, each read by `read` from where the one before ended. */
  function DecodeMany(read: string -> Option<(string, string)>, count: nat, s: string): Option<(seq<string>, string)> {
    if count == 0 then Some(([], s)) else
      match read(s)
      case None => None
      case Some((arg, rest)) =>
        match DecodeMany(read, count - 1, rest)
        case None => None
        case Some((args, rest')) => Some(([arg] + args, rest'))
  }

  lemma {:induction false} ManyShrink(read: string -> Option<(string, string)>, count: nat, s: string)
    requires forall x :: read(x).Some? ==> |read(x).value.1| <= |x|
    ensures DecodeMany(read, count, s).Some? ==> |DecodeMany(read, count, s).value.1| <= |s|
  {
    if count > 0 && read(s).Some? {
      ManyShrink(read, count - 1, read(s).value.1);
    }
  }

  function DecodeCommand(s: string): (r: Option<(seq<string>, string)>)
    ensures r.Some? ==> |r.value.1| < |s|
  {
    match DecodeLength('*', s)
    case None => None
    case Some((count, rest)) => ManyShrink(DecodeBulk, count, rest); DecodeMany(DecodeBulk, count, rest)
  }

  /** The commands a server has seen once it has received `s`; an unfinished one stays in its buffer. */
  function Received(s: string): (cmds: seq<seq<string>>)
    decreases |s|
  {
    match DecodeCommand(s)
    case None => []
    case Some((cmd, rest)) => [cmd] + Received(rest)
  }

  // ---- Encoding is uniquely decodable ----

  lemma {:induction false} DigitsThen(digits: string, rest: string)
    requires AllDigits(digits) && (rest == "" || !IsDigit(rest[0]))
    ensures LeadingDigits(digits + rest) == |digits|
  {
    if digits == "" {
      assert digits + rest == rest;
    } else {
      assert (digits + rest)[1..] == digits[1..] + rest;
      DigitsThen(digits[1..], rest);
    }
  }

  lemma DecodeLengthReads(kind: char, n: nat, rest: string)
    ensures DecodeLength(kind, [kind] + Decimal(n) + CRLF + rest) == Some((n, rest))
  {
    var s := [kind] + Decimal(n) + CRLF + rest;
    assert s[1..] == Decimal(n) + (CRLF + rest);
    DigitsThen(Decimal(n), CRLF + rest);
    var k := |Decimal(n)|;
    assert s[1..][..k] == Decimal(n);
    assert s[1 + k..] == CRLF + rest;
    assert (CRLF + rest)[2..] == rest;
    DecimalReads(n);
  }

  lemma DecodeBulkReads(arg: string, rest: string)
    ensures DecodeBulk(Bulk(arg) + rest) == Some((arg, rest))
  {
    var tail := arg + CRLF + rest;
    assert Bulk(arg) + rest == ['$'] + Decimal(|arg|) + CRLF + tail;
    DecodeLengthReads('$', |arg|, tail);
    assert tail[..|arg|] == arg && tail[|arg|..|arg| + 2] == CRLF && tail[|arg| + 2..] == rest;
  }

  lemma {:induction false} DecodeBulksReads(args: seq<string>, rest: string)
    ensures DecodeMany(DecodeBulk, |args|, Bulks(args) + rest) == Some((args, rest))
  {
    if args == [] {
      assert Bulks(args) + rest == rest;
    } else {
      assert Bulks(args) + rest == Bulk(args[0]) + (Bulks(args[1..]) + rest);
      DecodeBulkReads(args[0], Bulks(args[1..]) + rest);
      DecodeBulksReads(args[1..], rest);
      assert [args[0]] + args[1..] == args;
    }
  }

  /** A decoder gets back any command, even when an argument contains line ends or looks like a command. */
  lemma DecodeUndoesEncode(args: seq<string>, rest: string)
    ensures DecodeCommand(Encode(args) + rest) == Some((args, rest))
  {
    assert Encode(args) + rest == ['*'] + Decimal(|args|) + CRLF + (Bulks(args) + rest);
    DecodeLengthReads('*', |args|, Bulks(args) + rest);
    DecodeBulksReads(args, rest);
  }

  /** No command is the beginning of another one. */
  lemma EncodingIsPrefixFree(a: seq<string>, b: seq<string>)
    requires Encode(a) <= Encode(b)
    ensures a == b
  {
    var s, t := Encode(a), Encode(b);
    assert s + t[|s|..] == t + "";
    SameStreamSameCommand(a, t[|s|..], b, "");
  }

  lemma SameStreamSameCommand(a: seq<string>, x: string, b: seq<string>, y: string)
    requires Encode(a) + x == Encode(b) + y
    ensures a == b && x == y
  {
    DecodeUndoesEncode(a, x);
    DecodeUndoesEncode(b, y);
  }

  lemma {:induction false} ReceivedUndoesEncodeAll(cmds: seq<seq<string>>)
    ensures Received(EncodeAll(cmds)) == cmds
  {
    if cmds != [] {
      DecodeUndoesEncode(cmds[0], EncodeAll(cmds[1..]));
      ReceivedUndoesEncodeAll(cmds[1..]);
      assert [cmds[0]] + cmds[1..] == cmds;
    }
  }

  // ---- A broken connection ----

  /** What a decoder has made of a beginning of the stream stands, whatever follows. */
  lemma LengthExtends(kind: char, s: string, t: string, n: nat, rest: string)
    requires DecodeLength(kind, s) == Some((n, rest))
    ensures DecodeLength(kind, s + t) == Some((n, rest + t))
  {
    var k := LeadingDigits(s[1..]);
    var digits := s[1..][..k];
    assert s[1..] == digits + s[1 + k..];
    assert (s + t)[1..] == digits + (s[1 + k..] + t);
    DigitsThen(digits, s[1 + k..] + t);
    assert (s + t)[1..][..k] == digits;
    assert (s + t)[1 + k..] == s[1 + k..] + t;
    assert (s[1 + k..] + t)[2..] == s[1 + k..][2..] + t;
  }

  lemma BulkExtends(s: string, t: string, arg: string, rest: string)
    requires DecodeBulk(s) == Some((arg, rest))
    ensures DecodeBulk(s + t) == Some((arg, rest + t))
  {
    var (n, tail) := DecodeLength('$', s).value;
    LengthExtends('$', s, t, n, tail);
    assert (tail + t)[..n] == tail[..n] && (tail + t)[n..n + 2] == tail[n..n + 2];
    assert (tail + t)[n + 2..] == tail[n + 2..] + t;
  }

  lemma {:induction false} ManyExtend(read: string -> Option<(string, string)>, count: nat, s: string, t: string,
                                      args: seq<string>, rest: string)
    requires forall x, arg, tail :: read(x) == Some((arg, tail)) ==> read(x + t) == Some((arg, tail + t))
    requires DecodeMany(read, count, s) == Some((args, rest))
    ensures DecodeMany(read, count, s + t) == Some((args, rest + t))
  {
    if count > 0 {
      var (arg, tail) := read(s).value;
      assert read(s + t) == Some((arg, tail + t));
      ManyExtend(read, count - 1, tail, t, DecodeMany(read, count - 1, tail).value.0, rest);
    }
  }

  lemma CommandExtends(s: string, t: string, cmd: seq<string>, rest: string)
    requires DecodeCommand(s) == Some((cmd, rest))
    ensures DecodeCommand(s + t) == Some((cmd, rest + t))
  {
    var (count, tail) := DecodeLength('*', s).value;
    LengthExtends('*', s, t, count, tail);
    forall x, arg, end | DecodeBulk(x) == Some((arg, end))
      ensures DecodeBulk(x + t) == Some((arg, end + t))
    {
      BulkExtends(x, t, arg, end);
    }
    ManyExtend(DecodeBulk, count, tail, t, cmd, rest);
  }

  /** Wherever the stream breaks off, the server has seen the first few commands and nothing else. */
  lemma {:induction false} BrokenStreamIsAPrefix(cmds: seq<seq<string>>, s: string)
    requires s <= EncodeAll(cmds)
    ensures Received(s) <= cmds
    decreases |s|
  {
    var t := EncodeAll(cmds)[|s|..];
    assert EncodeAll(cmds) == s + t;
    if DecodeCommand(s).Some? {
      var (cmd, rest) := DecodeCommand(s).value;
      CommandExtends(s, t, cmd, rest);
      if cmds != [] {
        DecodeUndoesEncode(cmds[0], EncodeAll(cmds[1..]));
        assert cmd == cmds[0] && rest + t == EncodeAll(cmds[1..]);
        BrokenStreamIsAPrefix(cmds[1..], rest);
      }
    }
  }

  lemma {:induction false} EncodeAllConcat(a: seq<seq<string>>, b: seq<seq<string>>)
    ensures EncodeAll(a + b) == EncodeAll(a) + EncodeAll(b)
  {
    if a == [] {
      assert a + b == b;
    } else {
      assert (a + b)[1..] == a[1..] + b;
      EncodeAllConcat(a[1..], b);
    }
  }

  lemma NextCommand(cmds: seq<seq<string>>, k: nat)
    requires k < |cmds|
    ensures EncodeAll(cmds[..k + 1]) == EncodeAll(cmds[..k]) + Encode(cmds[k])
    ensures EncodeAll(cmds[..k + 1]) <= EncodeAll(cmds)
  {
    SplitAt(cmds, k);
    EncodeAllConcat(cmds[..k], [cmds[k]]);
    EncodeOne(cmds[k]);
    EncodeAllConcat(cmds[..k + 1], cmds[k + 1..]);
  }

  lemma EncodeOne(cmd: seq<string>)
    ensures EncodeAll([cmd]) == Encode(cmd)
  {
    assert EncodeAll([cmd]) == Encode(cmd) + "";
  }

  // ---- Replies ----

  /** strconv.Itoa */
  function Itoa(n: int): string {
    if n < 0 then "-" + Decimal(-n) else Decimal(n)
  }

  /** `s` is `n` in decimal, with a minus sign if it is negative. */
  predicate Reads(s: string, n: int) {
    if n >= 0 then s != "" && AllDigits(s) && ValueOf(s) == n
    else |s| > 1 && s[0] == '-' && AllDigits(s[1..]) && ValueOf(s[1..]) == -n
  }

  lemma ItoaReads(n: int)
    ensures Reads(Itoa(n), n)
  {
    DecimalReads(if n < 0 then -n else n);
    assert n < 0 ==> Itoa(n)[1..] == Decimal(-n);
  }

  lemma AtoiUndoesItoa(n: int)
    requires -TWO_TO_63 <= n < TWO_TO_63
    ensures Atoi(Itoa(n)) == Some(n)
  {
    var magnitude := if n < 0 then -n else n;
    DecimalReads(magnitude);
    AtoiReads(Decimal(magnitude));
  }

  const MAX_INT := 0x7FFF_FFFF_FFFF_FFFF

  /** strconv.Atoi: an optional sign, digits, and the 64-bit range. */
  function Atoi(s: string): Option<int> {
    var signed := s != "" && (s[0] == '-' || s[0] == '+');
    var digits := if signed then s[1..] else s;
    if digits == "" || !AllDigits(digits) then None else
      var value: int := ValueOf(digits);
      var n := if signed && s[0] == '-' then -value else value;
      if -MAX_INT - 1 <= n <= MAX_INT then Some(n) else None
  }

  /** bufio's ReadString('\n'): the first line with its end, and what follows it. */
  function FirstLine(s: string): Option<(string, string)> {
    if s == "" then None
    else if s[0] == '\n' then Some((s[..1], s[1..]))
    else match FirstLine(s[1..])
      case None => None
      case Some((line, rest)) => Some(([s[0]] + line, rest))
  }

  function TrimLine(s: string): string {
    if s != "" && (s[|s| - 1] == '\r' || s[|s| - 1] == '\n') then TrimLine(s[..|s| - 1]) else s
  }

  datatype Reply = Good | Bad | Payload(length: nat)

  function Judge(line: string): Reply {
    if line == "" then Bad
    else if line[0] == '+' then (if line == "+OK" then Good else Bad)
    else if line[0] == ':' then Good
    else if line[0] == '$' then
      match Atoi(line[1..])
      case None => Bad
      case Some(n) => if n >= 0 then Payload(n) else Good
    else Bad
  }

  /** The body of a simple string, integer or error reply. */
  predicate LineReply(r: string) {
    r != "" && r[0] in "+:-" && '\r' !in r && '\n' !in r
  }

  predicate IsGood(r: string) {
    r == "+OK" || (r != "" && r[0] == ':')
  }

  function Replies(rs: seq<string>): string {
    if rs == [] then "" else rs[0] + CRLF + Replies(rs[1..])
  }

  /** One line reply per command, and perhaps more. */
  predicate Answer(replies: seq<string>, cmds: seq<seq<string>>) {
    |cmds| <= |replies| && forall i | 0 <= i < |replies| :: LineReply(replies[i])
  }

  const TWO_TO_63 := 9_223_372_036_854_775_808

  /** Digits are read as a number that must fit 64 bits; a sign in front of them is heeded. */
  lemma AtoiReads(digits: string)
    requires digits != "" && AllDigits(digits)
    ensures Atoi(digits) == if ValueOf(digits) < TWO_TO_63 then Some(ValueOf(digits)) else None
    ensures Atoi("+" + digits) == Atoi(digits)
    ensures Atoi("-" + digits) == if ValueOf(digits) <= TWO_TO_63 then Some(-(ValueOf(digits) as int)) else None
  {
    assert IsDigit(digits[0]);
    assert ("+" + digits)[1..] == digits;
    assert ("-" + digits)[1..] == digits;
  }

  /** Anything else is refused. */
  lemma AtoiRefuses(s: string)
    requires s != "" ==>
               || (exists i :: 0 < i < |s| && !IsDigit(s[i]))
               || (!IsDigit(s[0]) && (|s| == 1 || (s[0] != '+' && s[0] != '-')))
    ensures Atoi(s) == None
  {
    if i :| 0 < i < |s| && !IsDigit(s[i]) {
      assert s[1..][i - 1] == s[i];
    }
  }

  /** Bulk replies announce their payload; a negative length announces none and is accepted. */
  lemma BulkReplies(text: string)
    ensures Judge("$" + text) ==
              if Atoi(text) == None then Bad else if Atoi(text).value >= 0 then Payload(Atoi(text).value) else Good
  {
    assert ("$" + text)[1..] == text;
  }

  /** Replies of any other type, and an empty line, are refused. */
  lemma OtherReplies(line: string)
    requires line == "" || line[0] !in "+:$"
    ensures Judge(line) == Bad
  {
  }

  lemma {:induction false} FirstLineReads(body: string, rest: string)
    requires '\n' !in body
    ensures FirstLine(body + CRLF + rest) == Some((body + CRLF, rest))
  {
    var s := body + CRLF + rest;
    if body == "" {
      assert s[0] == '\r' && s[1..][0] == '\n' && s[1..][..1] == "\n" && s[1..][1..] == rest;
      assert FirstLine(s[1..]) == Some(("\n", rest));
      assert [s[0]] + "\n" == body + CRLF;
    } else {
      assert s[1..] == body[1..] + CRLF + rest;
      FirstLineReads(body[1..], rest);
      assert [s[0]] + (body[1..] + CRLF) == body + CRLF;
    }
  }

  lemma TrimLineReads(body: string)
    requires '\r' !in body && '\n' !in body
    ensures TrimLine(body + CRLF) == body
  {
    assert (body + CRLF)[..|body| + 1] == body + "\r";
    assert (body + "\r")[..|body|] == body;
    assert TrimLine(body) == body;
  }

  lemma ReplyReads(rs: seq<string>)
    requires rs != [] && LineReply(rs[0])
    ensures FirstLine(Replies(rs)) == Some((rs[0] + CRLF, Replies(rs[1..])))
    ensures Judge(TrimLine(rs[0] + CRLF)) == if IsGood(rs[0]) then Good else Bad
  {
    FirstLineReads(rs[0], Replies(rs[1..]));
    TrimLineReads(rs[0]);
  }

  // ---- The notifier ----

  datatype Target = Target(password: string, db: int, prefix: string)

  function Key(prefix: string, id: nat, field: string): string {
    prefix + ":endpoint:" + Decimal(id) + ":" + field
  }

  /** The commands one notification consists of. */
  function Commands(r: Target, id: nat, name: string, title: string, message: string): (cmds: seq<seq<string>>) {
    (if r.password != "" then [["AUTH", r.password]] else [])
    + (if r.db != 0 then [["SELECT", Itoa(r.db)]] else [])
    + Updates(r.prefix, id, name, title, message)
  }

  function Updates(prefix: string, id: nat, name: string, title: string, message: string): (cmds: seq<seq<string>>) {
    [["INCR", Key(prefix, id, "count")], ["SET", Key(prefix, id, "name"), name],
     ["SET", Key(prefix, id, "last_title"), title], ["SET", Key(prefix, id, "last_message"), message]]
  }

  /**
   A notification authenticates exactly when there is a password, then selects a database exactly when it is not
   number 0, then updates.
   */
  lemma CommandsAre(r: Target, id: nat, name: string, title: string, message: string)
    ensures var cmds := Commands(r, id, name, title, message);
            var auth: nat := if r.password != "" then 1 else 0;
            var select: nat := if r.db != 0 then 1 else 0;
            && |cmds| == auth + select + 4
            && (auth == 1 ==> cmds[0] == ["AUTH", r.password])
            && (select == 1 ==> |cmds[auth]| == 2 && cmds[auth][0] == "SELECT" && Reads(cmds[auth][1], r.db))
            && cmds[auth + select..] == Updates(r.prefix, id, name, title, message)
  {
    ItoaReads(r.db);
  }

  /** For example, with a password and database 2. */
  lemma NotificationExample(name: string, title: string, message: string)
    ensures Commands(Target("pw", 2, "tp"), 7, name, title, message) ==
              [["AUTH", "pw"], ["SELECT", "2"], ["INCR", "tp:endpoint:7:count"], ["SET", "tp:endpoint:7:name", name],
               ["SET", "tp:endpoint:7:last_title", title], ["SET", "tp:endpoint:7:last_message", message]]
  {
    assert Decimal(2) == "2";
    KeyExample("count");
    KeyExample("name");
    KeyExample("last_title");
    KeyExample("last_message");
    assert "tp:endpoint:7:" + "count" == "tp:endpoint:7:count" && "tp:endpoint:7:" + "name" == "tp:endpoint:7:name";
    assert "tp:endpoint:7:" + "last_title" == "tp:endpoint:7:last_title";
    assert "tp:endpoint:7:" + "last_message" == "tp:endpoint:7:last_message";
  }

  lemma KeyExample(field: string)
    ensures Key("tp", 7, field) == "tp:endpoint:7:" + field
  {
    assert Decimal(7) == "7";
    assert "tp" + ":endpoint:" + "7" + ":" == "tp:endpoint:7:";
  }

  lemma EncodingExample()
    ensures Encode(["GET", "k\r\n"]) == "*2\r\n$3\r\nGET\r\n$3\r\nk\r\n\r\n"
  {
    BulkExample("GET");
    BulkExample("k\r\n");
    TwoBulks("GET", "k\r\n");
  }

  lemma BulkExample(arg: string)
    requires |arg| == 3
    ensures Bulk(arg) == "$3\r\n" + arg + "\r\n"
  {
    assert Decimal(3) == "3";
  }

  lemma TwoBulks(a: string, b: string)
    ensures Encode([a, b]) == "*2\r\n" + Bulk(a) + Bulk(b)
  {
    assert [a, b][1..] == [b] && [b][1..] == [];
    assert Bulks([b]) == Bulk(b) + Bulks([]) == Bulk(b);
    assert Bulks([a, b]) == Bulk(a) + Bulks([b]);
    assert Decimal(2) == "2";
  }

  lemma UpdatesAt(cmds: seq<seq<string>>, k: nat, prefix: string, id: nat, name: string, title: string, message: string)
    requires k <= |cmds| && cmds[k..] == Updates(prefix, id, name, title, message)
    ensures |cmds| == k + 4
    ensures cmds[k] == ["INCR", Key(prefix, id, "count")] && cmds[k + 1] == ["SET", Key(prefix, id, "name"), name]
    ensures cmds[k + 2] == ["SET", Key(prefix, id, "last_title"), title]
    ensures cmds[k + 3] == ["SET", Key(prefix, id, "last_message"), message]
  {
    assert forall i | 0 <= i < 4 :: cmds[k + i] == cmds[k..][i];
  }

  /** Different endpoints, and different fields of one endpoint, never share a key. */
  lemma KeysAreSeparate(prefix: string, i: nat, field: string, j: nat, other: string)
    requires Key(prefix, i, field) == Key(prefix, j, other)
    ensures i == j && field == other
  {
    var k := |prefix + ":endpoint:"|;
    assert Decimal(i) + (":" + field) == Key(prefix, i, field)[k..];
    assert Decimal(j) + (":" + other) == Key(prefix, j, other)[k..];
    DigitsThen(Decimal(i), ":" + field);
    DigitsThen(Decimal(j), ":" + other);
    SplitsAlike(Decimal(i), ":" + field, Decimal(j), ":" + other);
    DecimalReads(i);
    DecimalReads(j);
    SplitsAlike(":", field, ":", other);
  }

  lemma SplitsAlike(a: string, b: string, c: string, d: string)
    requires a + b == c + d && |a| == |c|
    ensures a == c && b == d
  {
    assert a == (a + b)[..|a|] && c == (c + d)[..|c|];
    assert b == (a + b)[|a|..] && d == (c + d)[|c|..];
  }

  /**
   How an exchange has gone.  Smooth: every command sent has had its own reply, all good.  Refused: the
   same, but the last reply is not good.
   */
  datatype Course = Smooth | Refused | Astray

  /** The connection: bytes written so far, and the bytes the peer will still deliver. */
  class Connection {
    var written: string
    var incoming: string

    constructor (incoming: string)
      ensures written == "" && this.incoming == incoming
    {
      written := "";
      this.incoming := incoming;
    }

    /** Grows the text of a command argument by argument. */
    method Build(args: seq<string>) returns (b: string)
      ensures b == Encode(args)
    {
      b := "*" + Decimal(|args|) + CRLF;
      for i := 0 to |args|
        invariant b + Bulks(args[i..]) == Encode(args)
      {
        assert args[i..][0] == args[i] && args[i..][1..] == args[i + 1..];
        b := b + ("$" + Decimal(|args[i]|) + CRLF + args[i] + CRLF);
      }
      assert args[|args|..] == [];
    }

    /** Writes one command and reads its reply; a payload is taken with a single, possibly short, read. */
    method SendCommand(args: seq<string>, reliable: bool) returns (ok: bool, ghost taken: nat)
      modifies this
      ensures old(written) <= written <= old(written) + Encode(args)
      ensures ok || reliable ==> written == old(written) + Encode(args)
      ensures ok || reliable ==>
          match FirstLine(old(incoming))
          case None => !ok && incoming == ""
          case Some((line, rest)) =>
            match Judge(TrimLine(line))
            case Good => ok && incoming == rest
            case Bad => !ok && incoming == rest
            case Payload(n) => (ok <==> rest != "") && taken <= |rest| && taken <= n + 2 && incoming == rest[taken..]
                               && (ok ==> taken > 0)
    {
      taken := 0;
      var b := Build(args);
      if * {
        if !reliable {
          var part: nat :| part <= |b|;
          written := written + b[..part];
          return false, taken;
        }
      }
      written := written + b;
      if * { if !reliable { return false, taken; } }
      match FirstLine(incoming)
      case None =>
        incoming := "";
        return false, taken;
      case Some((text, rest)) =>
        incoming := rest;
        var line := TrimLine(text);
        if "+" <= line {
          return line == "+OK", taken;
        } else if ":" <= line {
          return true, taken;
        } else if "-" <= line {
          return false, taken;
        } else if "$" <= line {
          var length := Atoi(line[1..]);
          if length.None? { return false, taken; }
          if length.value >= 0 {
            if incoming == "" { return false, taken; }
            var got: nat :| 1 <= got <= length.value + 2 && got <= |incoming|;
            incoming := incoming[got..];
            taken := got;
          }
          return true, taken;
        } else {
          return false, taken;
        }
    }

    /** `k` commands are out and `k` line replies have been taken off the stream. */
    ghost predicate Balanced(cmds: seq<seq<string>>, replies: seq<string>, k: nat)
      reads this
    {
      k <= |cmds| <= |replies| && written == EncodeAll(cmds[..k]) && incoming == Replies(replies[k..])
    }

    ghost function CourseOf(cmds: seq<seq<string>>, replies: seq<string>, k: nat): Course
      reads this
    {
      if !Balanced(cmds, replies, k) then Astray
      else if forall i | 0 <= i < k :: IsGood(replies[i]) then Smooth
      else if forall i | 0 <= i < k - 1 :: IsGood(replies[i]) then Refused
      else Astray
    }

    /** The next command of a notification, seen against the whole notification. */
    method Exchange(cmd: seq<string>, reliable: bool, ghost cmds: seq<seq<string>>,
                    ghost replies: seq<string>, ghost answered: bool, ghost k: nat) returns (ok: bool)
      requires k < |cmds| && cmds[k] == cmd && written == EncodeAll(cmds[..k])
      requires answered ==> reliable && Answer(replies, cmds) && CourseOf(cmds, replies, k) == Smooth
      modifies this
      ensures written <= EncodeAll(cmds)
      ensures ok ==> written == EncodeAll(cmds[..k + 1])
      ensures answered ==> CourseOf(cmds, replies, k + 1) == if ok then Smooth else Refused
    {
      NextCommand(cmds, k);
      if k < |replies| && LineReply(replies[k]) {
        ReplyReads(replies[k..]);
        assert replies[k..][1..] == replies[k + 1..];
      }
      ghost var taken;
      ok, taken := SendCommand(cmd, reliable);
    }

    /**
     One notification, over a connection just dialled.  Whatever happens, the stream is a beginning of the
     commands' encoding.  If the server sends one line reply per command, each command sent has consumed
     exactly its own reply, and the first reply that is not good ends the notification.
     */
    method Send(r: Target, id: nat, name: string, title: string, message: string, reliable: bool,
                ghost replies: seq<string>) returns (ok: bool, ghost cmds: seq<seq<string>>, ghost sent: nat)
      requires written == ""
      modifies this
      ensures cmds == Commands(r, id, name, title, message)
      ensures r.password != "" ==> |cmds| > 0 && cmds[0] == ["AUTH", r.password]
      ensures r.db != 0 ==> var k: nat := if r.password != "" then 1 else 0;
                            k < |cmds| && |cmds[k]| == 2 && cmds[k][0] == "SELECT" && Reads(cmds[k][1], r.db)
      ensures r.password == "" && r.db == 0 ==> cmds == Updates(r.prefix, id, name, title, message)
      ensures written <= EncodeAll(cmds) && (ok ==> written == EncodeAll(cmds))
      ensures reliable && old(incoming) == Replies(replies) && Answer(replies, cmds) ==>
                CourseOf(cmds, replies, sent) == (if ok then Smooth else Refused) && (ok ==> sent == |cmds|)
    {
      cmds := Commands(r, id, name, title, message);
      CommandsAre(r, id, name, title, message);
      ghost var answered := reliable && incoming == Replies(replies) && Answer(replies, cmds);
      sent := 0;
      assert cmds[..0] == [] && replies[0..] == replies;
      if r.password != "" {
        ok := Exchange(["AUTH", r.password], reliable, cmds, replies, answered, sent);
        sent := sent + 1;
        if !ok { return; }
      }
      if r.db != 0 {
        ok := Exchange(["SELECT", Itoa(r.db)], reliable, cmds, replies, answered, sent);
        sent := sent + 1;
        if !ok { return; }
      }
      assert cmds[sent..] == Updates(r.prefix, id, name, title, message);
      ok, sent := Publish(r.prefix, id, name, title, message, reliable, cmds, replies, answered, sent);
    }

    /** The second half of a notification: count, then name, title and message. */
    method Publish(prefix: string, id: nat, name: string, title: string, message: string, reliable: bool,
                   ghost cmds: seq<seq<string>>, ghost replies: seq<string>, ghost answered: bool, ghost k: nat)
      returns (ok: bool, ghost sent: nat)
      requires k <= |cmds| && cmds[k..] == Updates(prefix, id, name, title, message) && written == EncodeAll(cmds[..k])
      requires answered ==> reliable && Answer(replies, cmds) && CourseOf(cmds, replies, k) == Smooth
      modifies this
      ensures written <= EncodeAll(cmds) && (ok ==> written == EncodeAll(cmds))
      ensures answered ==> CourseOf(cmds, replies, sent) == (if ok then Smooth else Refused) && (ok ==> sent == |cmds|)
    {
      sent := k;
      UpdatesAt(cmds, k, prefix, id, name, title, message);
      ok := Exchange(["INCR", Key(prefix, id, "count")], reliable, cmds, replies, answered, sent);
      sent := sent + 1;
      if !ok { return; }
      ok := Exchange(["SET", Key(prefix, id, "name"), name], reliable, cmds, replies, answered, sent);
      sent := sent + 1;
      if !ok { return; }
      ok := Exchange(["SET", Key(prefix, id, "last_title"), title], reliable, cmds, replies, answered, sent);
      sent := sent + 1;
      if !ok { return; }
      ok := Exchange(["SET", Key(prefix, id, "last_message"), message], reliable, cmds, replies, answered, sent);
      sent := sent + 1;
      assert cmds[..|cmds|] == cmds;
    }
  }
}
