/** Database connection text: composing it, passing it through configuration and scripts,
    and reading the parts back. */
module Dsn {
  import opened Decimals
  import opened Options
  import opened PercentEncoding
  import opened Texts

  datatype Connection = Connection(user: string, password: string, host: string, port: nat, database: string)

  /** The text of a connection after its scheme; user and password are encoded already. */
  datatype Raw = Raw(user: string, password: string, host: string, port: string, database: string)

  function RawText(r: Raw): string {
    (r.user + ":" + r.password) + "@" + ((r.host + ":" + r.port) + "/" + r.database)
  }

  function RawOf(c: Connection): Raw {
    Raw(Quote(c.user), Quote(c.password), c.host, Decimal(c.port), c.database)
  }

  function WithScheme(scheme: string, body: string): string { scheme + "://" + body }

  /** `_compose_dsn`. */
  function ComposeDsn(c: Connection): string { WithScheme("postgresql+asyncpg", RawText(RawOf(c))) }

  lemma ComposedText(c: Connection)
    ensures ComposeDsn(c) == "postgresql+asyncpg://" + Quote(c.user) + ":" + Quote(c.password) + "@" +
                             c.host + ":" + Decimal(c.port) + "/" + c.database
  {
  }

  // ----- reading a URL -----------------------------------------------------------------------

  /** The parts before and after the first separator. */
  function Cut(s: string, c: char): Option<(string, string)> {
    var k := Texts.Find(s, c);
    if k == |s| then None else Some((s[..k], s[k + 1..]))
  }

  function Before(s: string, c: char): string { s[..Texts.Find(s, c)] }

  /** User, password, host, port and database of `user:password@host:port/database`, the
      shape composed here; a query after the database is cut off. */
  function SplitRaw(s: string): Option<Raw> {
    match Cut(s, '@')
    case None => None
    case Some((userinfo, rest)) =>
      match (Cut(userinfo, ':'), Cut(rest, '/'))
      case (Some((user, password)), Some((authority, path))) =>
        (match Cut(authority, ':')
         case Some((host, port)) => Some(Raw(user, password, host, port, Before(path, '?')))
         case None => None)
      case _ => None
  }

  function DecodeRaw(r: Raw): Option<Connection> {
    match (Unquote(r.user), Unquote(r.password))
    case (Some(user), Some(password)) =>
      if Digits(r.port) then Some(Connection(user, password, r.host, Value(r.port), r.database)) else None
    case _ => None
  }

  function ParseBody(s: string): Option<Connection> {
    match SplitRaw(s)
    case None => None
    case Some(raw) => DecodeRaw(raw)
  }

  function Parse(url: string): Option<Connection> {
    match Cut(url, ':')
    case None => None
    case Some((_, rest)) => if "//" <= rest then ParseBody(rest[2..]) else None
  }

  lemma CutFirst(a: string, c: char, rest: string)
    requires c !in a
    ensures Cut(a + [c] + rest, c) == Some((a, rest))
  {
    FindIsFirst(a, c, rest);
    var s := a + [c] + rest;
    assert s[..|a|] == a && s[|a| + 1..] == rest;
  }

  lemma QuoteHasNo(s: string, c: char)
    requires c != '%' && !Unreserved(c)
    ensures c !in Quote(s)
  {
    QuoteBytesIsSafe(Encode(s));
  }

  predicate Delimited(r: Raw) {
    && ':' !in r.user && '@' !in r.user && '@' !in r.password
    && ':' !in r.host && '/' !in r.host && '/' !in r.port && '?' !in r.database
  }

  lemma SplitRawText(r: Raw)
    requires Delimited(r)
    ensures SplitRaw(RawText(r)) == Some(r)
  {
    var userinfo := r.user + ":" + r.password;
    var authority := r.host + ":" + r.port;
    CutFirst(userinfo, '@', authority + "/" + r.database);
    CutFirst(r.user, ':', r.password);
    CutFirst(authority, '/', r.database);
    CutFirst(r.host, ':', r.port);
    FindNothing(r.database, '?');
    assert r.database[..|r.database|] == r.database;
  }

  /** The settings that are not encoded must not contain what delimits them. */
  predicate PlainPlace(c: Connection) {
    ':' !in c.host && '/' !in c.host && '?' !in c.database
  }

  lemma RawIsDelimited(c: Connection)
    requires PlainPlace(c)
    ensures Delimited(RawOf(c))
  {
    QuoteHasNo(c.user, '@');
    QuoteHasNo(c.user, ':');
    QuoteHasNo(c.password, '@');
    ValueOfDecimal(c.port);
  }

  lemma DecodeRawOf(c: Connection)
    ensures DecodeRaw(RawOf(c)) == Some(c)
  {
    UnquoteQuote(c.user);
    UnquoteQuote(c.password);
    ValueOfDecimal(c.port);
  }

  lemma ParseWithScheme(scheme: string, c: Connection)
    requires ':' !in scheme && PlainPlace(c)
    ensures Parse(WithScheme(scheme, RawText(RawOf(c)))) == Some(c)
  {
    var body := RawText(RawOf(c));
    assert WithScheme(scheme, body) == scheme + ":" + ("//" + body);
    CutFirst(scheme, ':', "//" + body);
    RawIsDelimited(c);
    SplitRawText(RawOf(c));
    DecodeRawOf(c);
  }

  lemma CutParts(s: string, c: char)
    requires Cut(s, c).Some?
    ensures var (a, rest) := Cut(s, c).value; c !in a && s == a + [c] + rest
  {
  }

  /** Whatever text is read, what comes back names a plain place. */
  lemma ParsedIsPlain(url: string)
    requires Parse(url).Some?
    ensures PlainPlace(Parse(url).value)
  {
    var (_, rest) := Cut(url, ':').value;
    SplitIsPlain(rest[2..]);
  }

  lemma SplitIsPlain(s: string)
    requires SplitRaw(s).Some?
    ensures var raw := SplitRaw(s).value; ':' !in raw.host && '/' !in raw.host && '?' !in raw.database
  {
    var (userinfo, rest) := Cut(s, '@').value;
    var (authority, path) := Cut(rest, '/').value;
    CutParts(rest, '/');
    CutParts(authority, ':');
  }

  /** For every user and every password, the composed URL parses back to its parts exactly
      when what is pasted unencoded does not contain what delimits it. */
  lemma ParseCompose(c: Connection)
    ensures Parse(ComposeDsn(c)) == Some(c) <==> PlainPlace(c)
  {
    if PlainPlace(c) {
      ParseWithScheme("postgresql+asyncpg", c);
    } else if Parse(ComposeDsn(c)).Some? {
      ParsedIsPlain(ComposeDsn(c));
    }
  }

  // ----- doubling a character ------------------------------------------------------------------

  function Double(c: char, s: string): string {
    if s == "" then "" else (if s[0] == c then [c, c] else [s[0]]) + Double(c, s[1..])
  }

  /** What interpolation makes of a text: `cc` is `c`, and any other use of `c` is an error. */
  function Undouble(c: char, s: string): Option<string> {
    if s == "" then Some("")
    else if s[0] != c then
      match Undouble(c, s[1..])
      case None => None
      case Some(t) => Some([s[0]] + t)
    else if |s| >= 2 && s[1] == c then
      match Undouble(c, s[2..])
      case None => None
      case Some(t) => Some([c] + t)
    else None
  }

  lemma {:induction false} UndoubleDouble(c: char, s: string)
    ensures Undouble(c, Double(c, s)) == Some(s)
  {
    if s != "" {
      UndoubleDouble(c, s[1..]);
      assert s == [s[0]] + s[1..];
      var d := Double(c, s);
      if s[0] == c {
        assert d[2..] == Double(c, s[1..]);
      } else {
        assert d[1..] == Double(c, s[1..]);
      }
    }
  }

  lemma {:induction false} UndoubleIsShorter(c: char, s: string)
    requires Undouble(c, s).Some?
    ensures |Undouble(c, s).value| <= |s| && (c in s ==> |Undouble(c, s).value| < |s|)
  {
    if s != "" {
      if s[0] != c {
        UndoubleIsShorter(c, s[1..]);
        assert s == [s[0]] + s[1..];
      } else {
        UndoubleIsShorter(c, s[2..]);
      }
    }
  }

  lemma {:induction false} UndoubleNothing(c: char, s: string)
    requires c !in s
    ensures Undouble(c, s) == Some(s)
  {
    if s != "" {
      UndoubleNothing(c, s[1..]);
      assert s == [s[0]] + s[1..];
    }
  }

  /** Without the doubling a text survives interpolation exactly when it has no `%`. */
  lemma UndoubledIff(s: string)
    ensures Undouble('%', s) == Some(s) <==> '%' !in s
  {
    if '%' !in s {
      UndoubleNothing('%', s);
    } else if Undouble('%', s).Some? {
      UndoubleIsShorter('%', s);
    }
  }

  /** The migration environment's way: doubled into the ini option, interpolated back, parsed. */
  lemma ThroughIniOption(c: Connection)
    ensures var read := Undouble('%', Double('%', ComposeDsn(c))); read.Some? && (Parse(read.value) == Some(c) <==> PlainPlace(c))
  {
    UndoubleDouble('%', ComposeDsn(c));
    ParseCompose(c);
  }

  // ----- the driver marker -----------------------------------------------------------------------

  /** `text.replace(old, new, 1)`. */
  function ReplaceFirst(s: string, old': string, new': string): string
    decreases |s|
  {
    if old' <= s then new' + s[|old'|..]
    else if s == "" then ""
    else [s[0]] + ReplaceFirst(s[1..], old', new')
  }

  predicate Contains(s: string, part: string) {
    exists i | 0 <= i <= |s| :: part <= s[i..]
  }

  const ASYNCPG: string := "postgresql+asyncpg://"
  const PSYCOPG: string := "postgresql+psycopg2://"
  const PLAIN: string := "postgresql://"

  function AsyncpgDsn(url: string): string { ReplaceFirst(ReplaceFirst(url, ASYNCPG, PLAIN), PSYCOPG, PLAIN) }

  lemma {:induction false} ReplaceAbsent(s: string, old': string, new': string)
    requires !Contains(s, old')
    ensures ReplaceFirst(s, old', new') == s
  {
    assert s[0..] == s;
    if s != "" {
      forall i | 0 <= i <= |s[1..]| ensures !(old' <= s[1..][i..]) {
        assert s[1..][i..] == s[i + 1..];
      }
      ReplaceAbsent(s[1..], old', new');
      assert s == [s[0]] + s[1..];
    }
  }

  lemma {:induction false} ReplacePresent(s: string, old': string, new': string)
    requires Contains(s, old')
    ensures |ReplaceFirst(s, old', new')| == |s| - |old'| + |new'|
  {
    if !(old' <= s) {
      var i :| 0 <= i <= |s| && old' <= s[i..];
      assert s[0..] == s;
      assert s[i..] == s[1..][i - 1..];
      ReplacePresent(s[1..], old', new');
    }
  }

  /** A driver marker: its first slash comes right after its colon. */
  predicate Marker(m: string) {
    |m| > 20 && m[19] == ':' && m[20] == '/' && forall i | 0 <= i < 20 :: m[i] != '/'
  }

  /** No slash follows a colon so far into the text, and no colon ends it. */
  predicate Clear(a: string) {
    (a != "" ==> a[|a| - 1] != ':') && forall j | 20 <= j < |a| :: a[j] == '/' ==> a[j - 1] != ':'
  }

  /** A marker does not begin such a text, with a slash behind it. */
  lemma NotAtFront(m: string, a: string, d: string)
    requires Marker(m) && Clear(a)
    ensures !(m <= a + "/" + d)
  {
    var s := a + "/" + d;
    if |a| < 20 {
      assert s[|a|] == '/' && m[|a|] != '/';
    } else {
      assert s[19] == a[19] && s[20] == if |a| == 20 then '/' else a[20];
    }
  }

  lemma ReplaceStep(m: string, new': string, c: char, rest: string)
    requires !(m <= [c] + rest)
    ensures ReplaceFirst([c] + rest, m, new') == [c] + ReplaceFirst(rest, m, new')
  {
    assert ([c] + rest)[1..] == rest;
  }

  lemma ReplaceStart(m: string, new': string, rest: string)
    ensures ReplaceFirst(m + rest, m, new') == new' + rest
  {
    assert (m + rest)[|m|..] == rest;
  }

  lemma FirstApart(a: string, d: string)
    requires a != ""
    ensures a + "/" + d == [a[0]] + (a[1..] + "/" + d)
  {
  }

  lemma ClearTail(a: string)
    requires a != "" && Clear(a)
    ensures Clear(a[1..])
  {
    assert forall j | 0 <= j < |a| - 1 :: a[1..][j] == a[j + 1];
  }

  /** So it is only replaced behind the slash. */
  lemma {:induction false} ReplaceAfter(m: string, new': string, a: string, d: string)
    requires Marker(m) && Clear(a)
    ensures ReplaceFirst(a + "/" + d, m, new') == a + "/" + ReplaceFirst(d, m, new')
    decreases |a|
  {
    NotAtFront(m, a, d);
    if a == "" {
      assert a + "/" + d == ['/'] + d;
      ReplaceStep(m, new', '/', d);
    } else {
      var rest := a[1..] + "/" + d;
      FirstApart(a, d);
      ClearTail(a);
      ReplaceAfter(m, new', a[1..], d);
      ReplaceStep(m, new', a[0], rest);
      FirstApart(a, ReplaceFirst(d, m, new'));
    }
  }

  lemma {:induction false} ReplaceHasNo(s: string, old': string, new': string, c: char)
    requires c !in s && c !in new'
    ensures c !in ReplaceFirst(s, old', new')
  {
    if !(old' <= s) && s != "" {
      ReplaceHasNo(s[1..], old', new', c);
    }
  }

  /** Everything before the database's slash. */
  function Front(r: Raw): string { (r.user + ":" + r.password) + "@" + (r.host + ":" + r.port) }

  lemma FrontIsClear(r: Raw)
    requires '/' !in r.user && '/' !in r.password && '/' !in r.host && Digits(r.port) && r.port != ""
    ensures Clear(PLAIN + Front(r))
  {
    var a := PLAIN + Front(r);
    assert '/' !in Front(r);
    assert forall j | 20 <= j < |a| :: a[j] == Front(r)[j - |PLAIN|];
    assert a[|a| - 1] == r.port[|r.port| - 1];
  }

  lemma FrontThenDatabase(r: Raw, scheme: string)
    ensures scheme + RawText(r) == (scheme + Front(r)) + "/" + r.database
  {
  }

  lemma StripRaw(r: Raw)
    requires '/' !in r.user && '/' !in r.password && '/' !in r.host && Digits(r.port) && r.port != ""
    ensures AsyncpgDsn(ASYNCPG + RawText(r)) == PLAIN + RawText(r.(database := ReplaceFirst(r.database, PSYCOPG, PLAIN)))
  {
    ReplaceStart(ASYNCPG, PLAIN, RawText(r));
    FrontIsClear(r);
    PsycopgIsMarker();
    var d := ReplaceFirst(r.database, PSYCOPG, PLAIN);
    ReplaceAfter(PSYCOPG, PLAIN, PLAIN + Front(r), r.database);
    FrontThenDatabase(r, PLAIN);
    FrontThenDatabase(r.(database := d), PLAIN);
  }

  lemma PsycopgIsMarker()
    ensures Marker(PSYCOPG)
  {
  }

  lemma StripComposed(c: Connection)
    requires '/' !in c.host
    ensures AsyncpgDsn(ComposeDsn(c)) == WithScheme("postgresql", RawText(RawOf(c.(database := ReplaceFirst(c.database, PSYCOPG, PLAIN)))))
  {
    QuoteHasNo(c.user, '/');
    QuoteHasNo(c.password, '/');
    ValueOfDecimal(c.port);
    assert "postgresql+asyncpg" + "://" == ASYNCPG && "postgresql" + "://" == PLAIN;
    StripRaw(RawOf(c));
  }

  /** The role script's way: everything comes back exactly when the place is plain and the
      database name does not contain the other driver marker. In a plain place user,
      password, host and port come back whatever the database is called. */
  lemma ThroughDriverMarker(c: Connection)
    ensures Parse(AsyncpgDsn(ComposeDsn(c))) == Some(c) <==> PlainPlace(c) && !Contains(c.database, PSYCOPG)
    ensures PlainPlace(c) ==> var read := Parse(AsyncpgDsn(ComposeDsn(c)));
                              read.Some? && read.value == c.(database := read.value.database)
  {
    if PlainPlace(c) {
      StripComposed(c);
      ReplaceHasNo(c.database, PSYCOPG, PLAIN, '?');
      ParseWithScheme("postgresql", c.(database := ReplaceFirst(c.database, PSYCOPG, PLAIN)));
      SameIffAbsent(c.database);
    } else if Parse(AsyncpgDsn(ComposeDsn(c))).Some? {
      ParsedIsPlain(AsyncpgDsn(ComposeDsn(c)));
    }
  }

  lemma SameIffAbsent(s: string)
    ensures ReplaceFirst(s, PSYCOPG, PLAIN) == s <==> !Contains(s, PSYCOPG)
  {
    if Contains(s, PSYCOPG) {
      ReplacePresent(s, PSYCOPG, PLAIN);
    } else {
      ReplaceAbsent(s, PSYCOPG, PLAIN);
    }
  }

  // ----- quoting in SQL ------------------------------------------------------------------------------

  function Quoted(q: char, value: string): string { [q] + Double(q, value) + [q] }

  function QuoteIdent(value: string): string { Quoted('"', value) }

  function QuoteLiteral(value: string): string { Quoted('\'', value) }

  /** How SQL reads a quoted text after its opening quote: two quotes are one, a single one
      ends it (string constants, section 4.1 of the PostgreSQL manual). */
  function ReadRest(q: char, s: string): Option<(string, string)> {
    if s == "" then None
    else if s[0] != q then
      match ReadRest(q, s[1..])
      case None => None
      case Some((value, rest)) => Some(([s[0]] + value, rest))
    else if |s| >= 2 && s[1] == q then
      match ReadRest(q, s[2..])
      case None => None
      case Some((value, rest)) => Some(([q] + value, rest))
    else Some(("", s[1..]))
  }

  function ReadQuoted(q: char, s: string): Option<(string, string)> {
    if s != "" && s[0] == q then ReadRest(q, s[1..]) else None
  }

  lemma {:induction false} ReadBack(q: char, value: string, rest: string)
    requires rest == "" || rest[0] != q
    ensures ReadRest(q, Double(q, value) + [q] + rest) == Some((value, rest))
  {
    var s := Double(q, value) + [q] + rest;
    if value == "" {
      assert s[1..] == rest;
    } else {
      ReadBack(q, value[1..], rest);
      assert value == [value[0]] + value[1..];
      var tail := Double(q, value[1..]) + [q] + rest;
      if value[0] == q {
        assert s[2..] == tail && s[1] == q;
      } else {
        assert s[1..] == tail;
      }
    }
  }

  lemma QuotedReadsBack(q: char, value: string, rest: string)
    requires rest == "" || rest[0] != q
    ensures ReadQuoted(q, Quoted(q, value) + rest) == Some((value, rest))
  {
    assert (Quoted(q, value) + rest)[1..] == Double(q, value) + [q] + rest;
    ReadBack(q, value, rest);
  }

  function Head(exists': bool): string { if exists' then "ALTER ROLE " else "CREATE ROLE " }

  function Middle(exists': bool): string { if exists' then " WITH LOGIN PASSWORD " else " LOGIN PASSWORD " }

  /** The statement of `_ensure_role`, for an existing role or a new one. */
  function RoleStatement(exists': bool, role: string, password: string): string {
    Head(exists') + (QuoteIdent(role) + (Middle(exists') + QuoteLiteral(password)))
  }

  /** A fixed beginning, an identifier, a fixed middle and a literal; what is left over. */
  function ReadStatement(head: string, middle: string, s: string): Option<(string, string, string)> {
    if !(head <= s) then None
    else
      match ReadQuoted('"', s[|head|..])
      case None => None
      case Some((role, rest)) =>
        if !(middle <= rest) then None
        else
          match ReadQuoted('\'', rest[|middle|..])
          case None => None
          case Some((password, tail)) => Some((role, password, tail))
  }

  lemma StatementReadsBack(head: string, middle: string, role: string, password: string)
    requires middle != "" && middle[0] != '"'
    ensures ReadStatement(head, middle, head + (QuoteIdent(role) + (middle + QuoteLiteral(password)))) == Some((role, password, ""))
  {
    var rest := middle + QuoteLiteral(password);
    assert (head + (QuoteIdent(role) + rest))[|head|..] == QuoteIdent(role) + rest;
    QuotedReadsBack('"', role, rest);
    assert rest[|middle|..] == QuoteLiteral(password) + "";
    QuotedReadsBack('\'', password, "");
  }

  /** Whatever quotes the role name and the password hold, the statement names exactly that
      role and that password and ends there. */
  lemma StatementNamesRoleAndPassword(exists': bool, role: string, password: string)
    ensures ReadStatement(if exists' then "ALTER ROLE " else "CREATE ROLE ",
                          if exists' then " WITH LOGIN PASSWORD " else " LOGIN PASSWORD ",
                          RoleStatement(exists', role, password)) == Some((role, password, ""))
  {
    StatementReadsBack(Head(exists'), Middle(exists'), role, password);
  }
}
