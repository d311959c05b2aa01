/** The pairing link that is shown as a QR code and parsed again by the phone
    (shared/security/src/pairing.cpp). */
module PairingUris {
  import opened Basics

  const BUFFER: nat := 512
  const PREFIX: string := "smartmic://pair?"

  datatype Uri = Uri(
    version: nat, host: string, port: nat, pcDeviceId: string,
    fingerprint: string, sessionId: string, code: string, expiresAtMs: nat)

  const BLANK: Uri := Uri(0, "", 0, "", "", "", "", 0)

  // ---------------------------------------------------------------- numbers in text

  predicate IsDigit(c: char) {
    '0' <= c <= '9'
  }

  function DigitOf(n: nat): char
    requires n < 10
  {
    ('0' as int + n) as char
  }

  function Decimal(n: nat): (s: string)
    ensures s != "" && forall i | 0 <= i < |s| :: IsDigit(s[i])
  {
    if n < 10 then [DigitOf(n)] else Decimal(n / 10) + [DigitOf(n % 10)]
  }

  function Value(digits: string): nat
    requires forall i | 0 <= i < |digits| :: IsDigit(digits[i])
  {
    if digits == "" then 0
    else
      var last := digits[|digits| - 1];
      assert IsDigit(last);
      Value(digits[..|digits| - 1]) * 10 + (last as int - '0' as int)
  }

  predicate IsSpace(c: char) {
    c == ' ' || '\U{9}' <= c <= '\U{D}'
  }

  function SkipSpaces(s: string): string {
    if s != "" && IsSpace(s[0]) then SkipSpaces(s[1..]) else s
  }

  function LeadingDigits(s: string): (d: string)
    ensures forall i | 0 <= i < |d| :: IsDigit(d[i])
  {
    if s != "" && IsDigit(s[0]) then [s[0]] + LeadingDigits(s[1..]) else ""
  }

  /** The C conversion of text to an unsigned number below `limit`, base ten: spaces, an
      optional sign that negates, digits, and the largest number on overflow. */
  function Unsigned(s: string, limit: nat): nat
    requires limit > 0
  {
    var t := SkipSpaces(s);
    var negative := t != "" && t[0] == '-';
    var n := Value(LeadingDigits(if t != "" && (t[0] == '-' || t[0] == '+') then t[1..] else t));
    if n >= limit then limit - 1
    else if negative && n > 0 then limit - n
    else n
  }

  // ---------------------------------------------------------------- building

  /** What `%s` prints of a string. */
  function CStr(s: string): string {
    if s == "" || s[0] == '\0' then "" else [s[0]] + CStr(s[1..])
  }

  function Piece(key: string, value: string): string {
    key + "=" + value
  }

  function ToPort(host: string, port: nat): string {
    Piece("v", "1") + "&" + Piece("host", host) + "&" + Piece("port", Decimal(port))
  }

  function ToSession(u: Uri): string {
    ToPort(CStr(u.host), u.port) + "&" + Piece("pcid", CStr(u.pcDeviceId)) + "&" + Piece("fp", CStr(u.fingerprint))
    + "&" + Piece("sid", CStr(u.sessionId))
  }

  function ToCode(u: Uri): string {
    ToSession(u) + "&" + Piece("code", CStr(u.code))
  }

  function Body(u: Uri): string {
    ToCode(u) + "&" + Piece("exp", Decimal(u.expiresAtMs))
  }

  /** The link: what fits in the buffer with its terminator. */
  function Link(u: Uri): string {
    var full := PREFIX + Body(u);
    if |full| < BUFFER then full else full[..BUFFER - 1]
  }

  // ---------------------------------------------------------------- parsing

  /** Where `c` first occurs, or the length. */
  function IndexOf(s: string, c: char): (i: nat)
    ensures i <= |s| && c !in s[..i] && (i < |s| ==> s[i] == c)
  {
    if s == "" || s[0] == c then 0
    else
      var i := IndexOf(s[1..], c) + 1;
      assert s[..i] == [s[0]] + s[1..][..i - 1];
      i
  }

  /** One parameter; `width` is the range of the platform's unsigned long. */
  function SetKey(u: Uri, key: string, value: string, width: nat): Uri
    requires width > 0
  {
    if key == "v" then u.(version := Unsigned(value, width) % U32)
    else if key == "host" then u.(host := value)
    else if key == "port" then u.(port := Unsigned(value, width) % U16)
    else if key == "pcid" then u.(pcDeviceId := value)
    else if key == "fp" then u.(fingerprint := value)
    else if key == "sid" then u.(sessionId := value)
    else if key == "code" then u.(code := value)
    else if key == "exp" then u.(expiresAtMs := Unsigned(value, U64))
    else u
  }

  /** One piece: everything before its first `=` is the key. */
  function Set(u: Uri, piece: string, width: nat): Uri
    requires width > 0
  {
    var eq := IndexOf(piece, '=');
    if eq == |piece| then u else SetKey(u, piece[..eq], piece[eq + 1..], width)
  }

  /** Where the last piece starts. */
  function LastStart(s: string): (i: nat)
    ensures i <= |s| && '&' !in s[i..] && (i > 0 ==> s[i - 1] == '&')
  {
    if s == "" || s[|s| - 1] == '&' then |s|
    else
      var i := LastStart(s[..|s| - 1]);
      assert s[i..] == s[..|s| - 1][i..] + [s[|s| - 1]];
      i
  }

  /** Every piece in turn, from the left. */
  function Collected(s: string, width: nat): Uri
    requires width > 0
  {
    var i := LastStart(s);
    Set(if i == 0 then BLANK else Collected(s[..i - 1], width), s[i..], width)
  }

  predicate Usable(u: Uri) {
    u.version == 1 && u.host != "" && u.port != 0 && u.sessionId != "" && |u.code| == 6 && u.pcDeviceId != ""
  }

  function Parsed(uri: string, width: nat): Maybe<Uri>
    requires width > 0
  {
    if !(PREFIX <= uri) then Nothing
    else
      var u := Collected(uri[|PREFIX|..], width);
      if Usable(u) then Just(u) else Nothing
  }

  /** One turn of the parser's loop. */
  method Assign(u: Uri, piece: string, width: nat) returns (out: Uri)
    requires width > 0
    ensures out == Set(u, piece, width)
  {
    out := u;
    var eq := IndexOf(piece, '=');
    if eq != |piece| {
      var key, value := piece[..eq], piece[eq + 1..];
      if key == "v" {
        out := out.(version := Unsigned(value, width) % U32);
      } else if key == "host" {
        out := out.(host := value);
      } else if key == "port" {
        out := out.(port := Unsigned(value, width) % U16);
      } else if key == "pcid" {
        out := out.(pcDeviceId := value);
      } else if key == "fp" {
        out := out.(fingerprint := value);
      } else if key == "sid" {
        out := out.(sessionId := value);
      } else if key == "code" {
        out := out.(code := value);
      } else if key == "exp" {
        out := out.(expiresAtMs := Unsigned(value, U64));
      }
    }
  }

  /** The first occurrence at or after `from`, or the length. */
  method Find(s: string, c: char, from: nat) returns (i: nat)
    requires from <= |s|
    ensures from <= i <= |s| && c !in s[from..i] && (i < |s| ==> s[i] == c)
  {
    i := from;
    while i < |s| && s[i] != c
      invariant from <= i <= |s| && c !in s[from..i]
    {
      i := i + 1;
      assert s[from..i] == s[from..i - 1] + [s[i - 1]];
    }
  }

  method NextPiece(rest: string, pos: nat, amp: nat, u: Uri, width: nat) returns (out: Uri)
    requires width > 0 && pos <= amp <= |rest| && '&' !in rest[pos..amp]
    requires pos > 0 ==> rest[pos - 1] == '&'
    requires u == if pos == 0 then BLANK else Collected(rest[..pos - 1], width)
    ensures out == Collected(rest[..amp], width)
    ensures amp == |rest| ==> out == Collected(rest, width)
  {
    CollectedPiece(rest, pos, amp, width);
    out := Assign(u, rest[pos..amp], width);
    assert rest[..|rest|] == rest;
  }

  /** The parser's loop over the pieces. */
  method ParseBody(rest: string, width: nat) returns (out: Uri)
    requires width > 0
    ensures out == Collected(rest, width)
  {
    out := BLANK;
    var pos := 0;
    while pos <= |rest|
      invariant 0 <= pos <= |rest|
      invariant pos > 0 ==> rest[pos - 1] == '&'
      invariant out == if pos == 0 then BLANK else Collected(rest[..pos - 1], width)
      decreases |rest| - pos
    {
      var amp := Find(rest, '&', pos);
      out := NextPiece(rest, pos, amp, out, width);
      if amp == |rest| {
        break;
      }
      pos := amp + 1;
    }
  }

  method ParsePairingUri(uri: string, width: nat) returns (parsed: Maybe<Uri>)
    requires width > 0
    ensures parsed == Parsed(uri, width)
  {
    if !(PREFIX <= uri) {
      return Nothing;
    }
    var out := ParseBody(uri[|PREFIX|..], width);
    if out.version != 1 || out.host == "" || out.port == 0 || out.sessionId == ""
       || |out.code| != 6 || out.pcDeviceId == "" {
      return Nothing;
    }
    return Just(out);
  }

  lemma CollectedPiece(rest: string, pos: nat, amp: nat, width: nat)
    requires width > 0 && pos <= amp <= |rest| && '&' !in rest[pos..amp]
    requires pos > 0 ==> rest[pos - 1] == '&'
    ensures Collected(rest[..amp], width)
         == Set(if pos == 0 then BLANK else Collected(rest[..pos - 1], width), rest[pos..amp], width)
  {
    LastStartIs(rest[..amp], pos);
    assert rest[..amp][pos..] == rest[pos..amp];
    if pos > 0 {
      assert rest[..amp][..pos - 1] == rest[..pos - 1];
    }
  }

  lemma LastStartIs(s: string, i: nat)
    requires i <= |s| && '&' !in s[i..] && (i > 0 ==> s[i - 1] == '&')
    ensures LastStart(s) == i
  {
    AbsentAfter(s, i, '&');
    AbsentAfter(s, LastStart(s), '&');
  }

  lemma AbsentAfter(s: string, i: nat, c: char)
    requires i <= |s| && c !in s[i..]
    ensures forall k | i <= k < |s| :: s[k] != c
  {
    forall k | i <= k < |s|
      ensures s[k] != c
    {
      assert s[i..][k - i] == s[k];
    }
  }

  lemma AbsentBefore(s: string, i: nat, c: char)
    requires i <= |s| && c !in s[..i]
    ensures forall k | 0 <= k < i :: s[k] != c
  {
    forall k | 0 <= k < i
      ensures s[k] != c
    {
      assert s[..i][k] == s[k];
    }
  }

  // ---------------------------------------------------------------- one piece at a time

  lemma CollectedAppend(a: string, piece: string, width: nat)
    requires width > 0 && '&' !in piece
    ensures Collected(a + "&" + piece, width) == Set(Collected(a, width), piece, width)
  {
    var s := a + "&" + piece;
    assert s[|a| + 1..] == piece && s[..|a|] == a;
    LastStartIs(s, |a| + 1);
  }

  lemma SetPiece(u: Uri, key: string, value: string, width: nat)
    requires width > 0 && '=' !in key
    ensures Set(u, Piece(key, value), width) == SetKey(u, key, value, width)
  {
    var piece := Piece(key, value);
    AbsentBefore(piece, IndexOf(piece, '='), '=');
    assert piece[..|key|] == key && piece[|key|] == '=' && piece[|key| + 1..] == value;
    AbsentBefore(piece, |key|, '=');
  }

  /** A piece cut before its `=` says nothing; one cut later says a shorter value. */
  lemma SetCutPiece(u: Uri, key: string, value: string, k: nat, width: nat)
    requires width > 0 && '=' !in key && k <= |Piece(key, value)|
    ensures Set(u, Piece(key, value)[..k], width)
         == if k <= |key| then u else SetKey(u, key, value[..k - |key| - 1], width)
  {
    if k <= |key| {
      assert Piece(key, value)[..k] == key[..k];
      AbsentAfter(key, 0, '=');
    } else {
      assert Piece(key, value)[..k] == Piece(key, value[..k - |key| - 1]);
      SetPiece(u, key, value[..k - |key| - 1], width);
    }
  }

  lemma AppendPiece(a: string, key: string, value: string, width: nat)
    requires width > 0 && '=' !in key && '&' !in key && '&' !in value
    ensures Collected(a + "&" + Piece(key, value), width) == SetKey(Collected(a, width), key, value, width)
  {
    CollectedAppend(a, Piece(key, value), width);
    SetPiece(Collected(a, width), key, value, width);
  }

  lemma {:induction false} CStrIsWhole(s: string)
    requires '\0' !in s
    ensures CStr(s) == s
  {
    if s != "" {
      CStrIsWhole(s[1..]);
    }
  }

  // ---------------------------------------------------------------- numbers survive

  lemma {:induction false} DecimalValue(n: nat)
    ensures Value(Decimal(n)) == n
  {
    if n >= 10 {
      DecimalValue(n / 10);
      assert Decimal(n)[..|Decimal(n)| - 1] == Decimal(n / 10);
    }
  }

  /** Cutting digits off the end loses at least the last one. */
  lemma {:induction false} CutDecimalValue(n: nat, k: nat)
    requires k < |Decimal(n)|
    ensures Value(Decimal(n)[..k]) <= n / 10
  {
    if n < 10 {
      assert Decimal(n)[..k] == "";
    } else {
      var front := Decimal(n / 10);
      assert Decimal(n) == front + [DigitOf(n % 10)];
      assert Decimal(n)[..k] == front[..k];
      if k < |front| {
        CutDecimalValue(n / 10, k);
      } else {
        assert front[..k] == front;
        DecimalValue(n / 10);
      }
    }
  }

  lemma {:induction false} LeadingDigitsOfDigits(s: string)
    requires forall i | 0 <= i < |s| :: IsDigit(s[i])
    ensures LeadingDigits(s) == s
  {
    if s != "" {
      LeadingDigitsOfDigits(s[1..]);
    }
  }

  lemma UnsignedOfDigits(s: string, limit: nat)
    requires limit > 0 && forall i | 0 <= i < |s| :: IsDigit(s[i])
    requires Value(s) < limit
    ensures Unsigned(s, limit) == Value(s)
  {
    LeadingDigitsOfDigits(s);
    assert s != "" ==> IsDigit(s[0]);
    UnsignedPlain(s, limit);
  }

  lemma UnsignedPlain(s: string, limit: nat)
    requires limit > 0 && (s == "" || IsDigit(s[0])) && Value(LeadingDigits(s)) < limit
    ensures Unsigned(s, limit) == Value(LeadingDigits(s))
  {
    assert SkipSpaces(s) == s;
  }

  // ---------------------------------------------------------------- the round trip

  predicate Clean(s: string) {
    '&' !in s && '\0' !in s
  }

  /** What an offer puts into a link. */
  predicate Offerable(u: Uri) {
    && u.version == 1
    && Clean(u.host) && Clean(u.pcDeviceId) && Clean(u.fingerprint) && Clean(u.sessionId) && Clean(u.code)
    && u.host != "" && u.pcDeviceId != "" && u.sessionId != "" && |u.code| == 6
    && 0 < u.port < U16 && u.expiresAtMs < U64
  }

  lemma CleanStrings(u: Uri)
    requires Offerable(u)
    ensures CStr(u.host) == u.host && CStr(u.pcDeviceId) == u.pcDeviceId && CStr(u.fingerprint) == u.fingerprint
    ensures CStr(u.sessionId) == u.sessionId && CStr(u.code) == u.code
  {
    CStrIsWhole(u.host);
    CStrIsWhole(u.pcDeviceId);
    CStrIsWhole(u.fingerprint);
    CStrIsWhole(u.sessionId);
    CStrIsWhole(u.code);
  }

  lemma DecimalIsClean(n: nat, limit: nat)
    requires n < limit
    ensures '&' !in Decimal(n) && Unsigned(Decimal(n), limit) == n
  {
    DecimalValue(n);
    UnsignedOfDigits(Decimal(n), limit);
  }

  lemma AppendHost(a: string, host: string, width: nat)
    requires width > 0 && '&' !in host
    ensures Collected(a + "&" + Piece("host", host), width) == Collected(a, width).(host := host)
  {
    AppendPiece(a, "host", host, width);
  }

  lemma AppendPort(a: string, port: nat, width: nat)
    requires width >= U32 && port < U16
    ensures Collected(a + "&" + Piece("port", Decimal(port)), width) == Collected(a, width).(port := port)
  {
    DecimalIsClean(port, width);
    AppendPiece(a, "port", Decimal(port), width);
    PortKey(Collected(a, width), Decimal(port), port, width);
  }

  lemma PortKey(u: Uri, digits: string, port: nat, width: nat)
    requires width > 0 && Unsigned(digits, width) == port < U16
    ensures SetKey(u, "port", digits, width) == u.(port := port)
  {
  }

  lemma AppendDevice(a: string, id: string, width: nat)
    requires width > 0 && '&' !in id
    ensures Collected(a + "&" + Piece("pcid", id), width) == Collected(a, width).(pcDeviceId := id)
  {
    AppendPiece(a, "pcid", id, width);
  }

  lemma AppendFingerprint(a: string, fp: string, width: nat)
    requires width > 0 && '&' !in fp
    ensures Collected(a + "&" + Piece("fp", fp), width) == Collected(a, width).(fingerprint := fp)
  {
    AppendPiece(a, "fp", fp, width);
  }

  lemma AppendSession(a: string, sid: string, width: nat)
    requires width > 0 && '&' !in sid
    ensures Collected(a + "&" + Piece("sid", sid), width) == Collected(a, width).(sessionId := sid)
  {
    AppendPiece(a, "sid", sid, width);
  }

  lemma AppendCode(a: string, code: string, width: nat)
    requires width > 0 && '&' !in code
    ensures Collected(a + "&" + Piece("code", code), width) == Collected(a, width).(code := code)
  {
    CodeKey();
    AppendPiece(a, "code", code, width);
  }

  lemma CodeKey()
    ensures '=' !in "code" && '&' !in "code"
  {
  }

  lemma VersionCollected(width: nat)
    requires width >= U32
    ensures Collected(Piece("v", "1"), width) == BLANK.(version := 1)
  {
    DecimalIsClean(1, width);
    assert Decimal(1) == "1";
    LastStartIs(Piece("v", "1"), 0);
    SetPiece(BLANK, "v", "1", width);
  }

  lemma ToPortCollected(host: string, port: nat, width: nat)
    requires width >= U32 && '&' !in host && port < U16
    ensures Collected(ToPort(host, port), width) == BLANK.(version := 1, host := host, port := port)
  {
    var a := Piece("v", "1");
    VersionCollected(width);
    AppendHost(a, host, width);
    AppendPort(a + "&" + Piece("host", host), port, width);
  }

  lemma ToSessionCollected(u: Uri, width: nat)
    requires Offerable(u) && width >= U32
    ensures Collected(ToSession(u), width) == u.(code := "", expiresAtMs := 0)
  {
    CleanStrings(u);
    var a := ToPort(u.host, u.port);
    var b := a + "&" + Piece("pcid", u.pcDeviceId);
    var c := b + "&" + Piece("fp", u.fingerprint);
    ToPortCollected(u.host, u.port, width);
    AppendDevice(a, u.pcDeviceId, width);
    AppendFingerprint(b, u.fingerprint, width);
    AppendSession(c, u.sessionId, width);
  }

  lemma ToCodeCollected(u: Uri, width: nat)
    requires Offerable(u) && width >= U32
    ensures Collected(ToCode(u), width) == u.(expiresAtMs := 0)
  {
    CleanStrings(u);
    ToSessionCollected(u, width);
    AppendCode(ToSession(u), u.code, width);
  }

  // ---------------------------------------------------------------- links that are cut short

  /** No prefix of `s` sets the code. */
  ghost predicate Codeless(s: string, width: nat)
    requires width > 0
  {
    forall k | 0 <= k <= |s| :: Collected(s[..k], width).code == ""
  }

  lemma OtherKeysKeepCode(u: Uri, piece: string, width: nat)
    requires width > 0 && (piece == "" || piece[0] != 'c')
    ensures Set(u, piece, width).code == u.code
  {
    var key := piece[..IndexOf(piece, '=')];
    assert "code"[0] == 'c';
    assert key != "" ==> key[0] == piece[0];
  }

  lemma CodelessAppend(a: string, key: string, value: string, width: nat)
    requires width > 0 && Codeless(a, width)
    requires '&' !in key && '&' !in value && key != "" && key[0] != 'c'
    ensures Codeless(a + "&" + Piece(key, value), width)
  {
    var piece := Piece(key, value);
    var s := a + "&" + piece;
    forall k | 0 <= k <= |s|
      ensures Collected(s[..k], width).code == ""
    {
      if k <= |a| {
        assert s[..k] == a[..k];
      } else {
        var cut := piece[..k - |a| - 1];
        assert s[..k] == a + "&" + cut;
        assert a[..|a|] == a;
        CollectedAppend(a, cut, width);
        OtherKeysKeepCode(Collected(a, width), cut, width);
      }
    }
  }

  lemma CodelessStart(key: string, value: string, width: nat)
    requires width > 0 && '&' !in key && '&' !in value && key != "" && key[0] != 'c'
    ensures Codeless(Piece(key, value), width)
  {
    var piece := Piece(key, value);
    forall k | 0 <= k <= |piece|
      ensures Collected(piece[..k], width).code == ""
    {
      LastStartIs(piece[..k], 0);
      OtherKeysKeepCode(BLANK, piece[..k], width);
    }
  }

  lemma ToSessionCodeless(u: Uri, width: nat)
    requires Offerable(u) && width >= U32
    ensures Codeless(ToSession(u), width)
  {
    CleanStrings(u);
    var a := Piece("v", "1");
    var b := a + "&" + Piece("host", u.host);
    var c := b + "&" + Piece("port", Decimal(u.port));
    var d := c + "&" + Piece("pcid", u.pcDeviceId);
    var e := d + "&" + Piece("fp", u.fingerprint);
    CodelessStart("v", "1", width);
    CodelessAppend(a, "host", u.host, width);
    DecimalIsClean(u.port, U16);
    CodelessAppend(b, "port", Decimal(u.port), width);
    CodelessAppend(c, "pcid", u.pcDeviceId, width);
    CodelessAppend(d, "fp", u.fingerprint, width);
    CodelessAppend(e, "sid", u.sessionId, width);
  }

  lemma CutAppended(a: string, piece: string, k: nat)
    requires |a| < k <= |a| + 1 + |piece|
    ensures (a + "&" + piece)[..k] == a + "&" + piece[..k - |a| - 1]
  {
  }

  /** A body cut within the code or before it has no six-character code. */
  lemma CutBeforeCodeEnds(u: Uri, k: nat, width: nat)
    requires Offerable(u) && width >= U32 && k < |ToCode(u)|
    ensures |Collected(ToCode(u)[..k], width).code| < 6
  {
    var a := ToSession(u);
    if k <= |a| {
      ToSessionCodeless(u, width);
      assert ToCode(u)[..k] == a[..k];
    } else {
      CutInCode(u, k - |a| - 1, width);
      CutAppended(a, Piece("code", CStr(u.code)), k);
    }
  }

  lemma CutInCode(u: Uri, n: nat, width: nat)
    requires Offerable(u) && width >= U32 && n < |Piece("code", CStr(u.code))|
    ensures |Collected(ToSession(u) + "&" + Piece("code", CStr(u.code))[..n], width).code| < 6
  {
    CStrIsWhole(u.code);
    ToSessionCollected(u, width);
    CutCodeAppended(ToSession(u), u.code, n, width);
  }

  lemma CutCodeAppended(a: string, code: string, n: nat, width: nat)
    requires width > 0 && Collected(a, width).code == "" && '&' !in code && |code| == 6 && n < |Piece("code", code)|
    ensures |Collected(a + "&" + Piece("code", code)[..n], width).code| < 6
  {
    CodeKey();
    assert '&' !in Piece("code", code)[..n];
    CollectedAppend(a, Piece("code", code)[..n], width);
    CutCode(Collected(a, width), code, n, width);
  }

  lemma CutCode(u: Uri, code: string, n: nat, width: nat)
    requires width > 0 && u.code == "" && |code| == 6 && n < |Piece("code", code)|
    ensures |Set(u, Piece("code", code)[..n], width).code| < 6
  {
    SetCutPiece(u, "code", code, n, width);
  }

  /** A body cut after the code differs at most in the expiry, and differs there exactly
      when a digit that mattered was lost. */
  lemma CutAfterCode(u: Uri, k: nat, width: nat)
    requires Offerable(u) && width >= U32 && |ToCode(u)| <= k <= |Body(u)|
    ensures var r := Collected(Body(u)[..k], width);
      && r.(expiresAtMs := u.expiresAtMs) == u && r.expiresAtMs <= u.expiresAtMs
      && (r == u <==> k == |Body(u)| || u.expiresAtMs == 0)
  {
    ToCodeCollected(u, width);
    var a, digits := ToCode(u), Decimal(u.expiresAtMs);
    if k == |a| {
      assert Body(u)[..k] == a;
    } else {
      var n := k - |a| - 1;
      assert Body(u)[..k] == a + "&" + Piece("exp", digits)[..n];
      CutInExpiry(a, u.expiresAtMs, n, width);
    }
  }

  lemma CutInExpiry(a: string, exp: nat, n: nat, width: nat)
    requires width > 0 && exp < U64 && n <= |Piece("exp", Decimal(exp))| && Collected(a, width).expiresAtMs == 0
    ensures var r := Collected(a + "&" + Piece("exp", Decimal(exp))[..n], width);
      && r == Collected(a, width).(expiresAtMs := r.expiresAtMs) && r.expiresAtMs <= exp
      && (r.expiresAtMs == exp <==> n == |Piece("exp", Decimal(exp))| || exp == 0)
  {
    DecimalIsClean(exp, U64);
    CollectedAppend(a, Piece("exp", Decimal(exp))[..n], width);
    SetCutExpiry(Collected(a, width), exp, n, width);
  }

  lemma SetCutExpiry(u: Uri, exp: nat, n: nat, width: nat)
    requires width > 0 && exp < U64 && n <= |Piece("exp", Decimal(exp))| && u.expiresAtMs == 0
    ensures var r := Set(u, Piece("exp", Decimal(exp))[..n], width);
      && r == u.(expiresAtMs := r.expiresAtMs) && r.expiresAtMs <= exp
      && (r.expiresAtMs == exp <==> n == |Piece("exp", Decimal(exp))| || exp == 0)
  {
    SetCutPiece(u, "exp", Decimal(exp), n, width);
    if n > 3 {
      CutExpiry(exp, n - 4);
      ExpiryKey(u, Decimal(exp)[..n - 4], width);
    }
  }

  lemma ExpiryKey(u: Uri, digits: string, width: nat)
    requires width > 0
    ensures SetKey(u, "exp", digits, width) == u.(expiresAtMs := Unsigned(digits, U64))
  {
  }

  lemma CutExpiry(n: nat, k: nat)
    requires n < U64 && k <= |Decimal(n)|
    ensures Unsigned(Decimal(n)[..k], U64) <= n
    ensures Unsigned(Decimal(n)[..k], U64) == n <==> k == |Decimal(n)| || n == 0
  {
    if k == |Decimal(n)| {
      assert Decimal(n)[..k] == Decimal(n);
      DecimalIsClean(n, U64);
    } else {
      CutDecimalValue(n, k);
      UnsignedOfDigits(Decimal(n)[..k], U64);
    }
  }

  /** The round trip.  A link survives exactly when it fits in the buffer, or when all that
      is cut off is an expiry of zero with its key.  A link that does not survive is refused
      or carries an earlier expiry, and nothing else in it is ever wrong. */
  lemma LinkRoundTrip(u: Uri, width: nat)
    requires Offerable(u) && width >= U32
    ensures var length, parsed := |"smartmic://pair?"| + |Body(u)|, Parsed(Link(u), width);
      && (parsed == Just(u) <==> length < 512 || (u.expiresAtMs == 0 && length < 518))
      && (parsed.Just? ==> parsed.value.(expiresAtMs := u.expiresAtMs) == u
                           && parsed.value.expiresAtMs <= u.expiresAtMs)
  {
    var k := if |PREFIX| + |Body(u)| < BUFFER then |Body(u)| else BUFFER - 1 - |PREFIX|;
    LinkIsCut(u, k, width);
    ZeroExpiryLength(u);
    if k < |ToCode(u)| {
      assert Body(u)[..k] == ToCode(u)[..k];
      CutBeforeCodeEnds(u, k, width);
    } else {
      CutAfterCode(u, k, width);
    }
  }

  lemma LinkIsCut(u: Uri, k: nat, width: nat)
    requires width > 0 && k == if |PREFIX| + |Body(u)| < BUFFER then |Body(u)| else BUFFER - 1 - |PREFIX|
    ensures var r := Collected(Body(u)[..k], width);
      Parsed(Link(u), width) == if Usable(r) then Just(r) else Nothing
  {
    assert Link(u) == PREFIX + Body(u)[..k];
    assert Link(u)[|PREFIX|..] == Body(u)[..k];
  }

  lemma ZeroExpiryLength(u: Uri)
    ensures |Body(u)| > |ToCode(u)|
    ensures u.expiresAtMs == 0 ==> |Body(u)| == |ToCode(u)| + 6
  {
  }

  // ---------------------------------------------------------------- what is accepted

  lemma {:induction false} CollectedPort(s: string, width: nat)
    requires width > 0
    ensures Collected(s, width).port < 65536
    decreases |s|
  {
    var i := LastStart(s);
    if i > 0 {
      CollectedPort(s[..i - 1], width);
    }
  }

  /** Whatever text is parsed, a link is accepted only with its scheme, version 1, a six
      character code, and a host, a port, a session and a device that are there. */
  lemma AcceptedIsUsable(uri: string, width: nat)
    requires width > 0
    ensures var p := Parsed(uri, width);
      p.Just? ==>
        && "smartmic://pair?" <= uri && p.value.version == 1 && |p.value.code| == 6
        && p.value.host != "" && 0 < p.value.port < 65536 && p.value.sessionId != "" && p.value.pcDeviceId != ""
  {
    if PREFIX <= uri {
      CollectedPort(uri[|PREFIX|..], width);
    }
  }

  /** And what is refused with the right scheme lacks one of these in what its pieces say. */
  lemma RefusedLacks(body: string, width: nat)
    requires width > 0
    ensures var u := Collected(body, width);
      Parsed("smartmic://pair?" + body, width).Nothing? ==>
        u.version != 1 || |u.code| != 6 || u.host == "" || u.port == 0 || u.sessionId == "" || u.pcDeviceId == ""
  {
    assert ("smartmic://pair?" + body)[|PREFIX|..] == body;
  }

  lemma NoSpaces(s: string)
    requires s != "" && !IsSpace(s[0])
    ensures SkipSpaces(s) == s && SkipSpaces(" " + s) == s
  {
    assert (" " + s)[1..] == s;
  }

  lemma DigitsRead(digits: string, limit: nat)
    requires limit > 0 && digits != "" && forall i | 0 <= i < |digits| :: IsDigit(digits[i])
    ensures Unsigned(digits, limit) == if Value(digits) < limit then Value(digits) else limit - 1
    ensures Unsigned(" " + digits, limit) == Unsigned(digits, limit)
  {
    LeadingDigitsOfDigits(digits);
    assert IsDigit(digits[0]);
    NoSpaces(digits);
  }

  lemma SignedRead(sign: char, digits: string, limit: nat)
    requires limit > 0 && (sign == '-' || sign == '+')
    requires digits != "" && forall i | 0 <= i < |digits| :: IsDigit(digits[i])
    ensures Unsigned([sign] + digits, limit) ==
      if Value(digits) >= limit then limit - 1
      else if sign == '-' && Value(digits) > 0 then limit - Value(digits) else Value(digits)
  {
    var s := [sign] + digits;
    LeadingDigitsOfDigits(digits);
    NoSpaces(s);
    assert s[1..] == digits;
  }

  /** Numbers as the C library reads them: digits up to the limit, everything beyond as the
      largest number, a minus sign as the negative modulo the range, leading spaces and a plus
      sign as nothing. */
  lemma NumbersRead(digits: string, limit: nat)
    requires limit > 0 && digits != "" && forall i | 0 <= i < |digits| :: IsDigit(digits[i])
    ensures Unsigned(digits, limit) == if Value(digits) < limit then Value(digits) else limit - 1
    ensures Unsigned(['+'] + digits, limit) == Unsigned(digits, limit)
    ensures Unsigned(" " + digits, limit) == Unsigned(digits, limit)
    ensures Unsigned(['-'] + digits, limit) ==
      if Value(digits) >= limit then limit - 1 else if Value(digits) == 0 then 0 else limit - Value(digits)
  {
    DigitsRead(digits, limit);
    SignedRead('+', digits, limit);
    SignedRead('-', digits, limit);
  }

  /** What follows the digits is ignored. */
  lemma {:induction false} DigitsEnd(digits: string, rest: string)
    requires forall i | 0 <= i < |digits| :: IsDigit(digits[i])
    requires rest != "" ==> !IsDigit(rest[0])
    ensures LeadingDigits(digits + rest) == digits
  {
    if digits != "" {
      assert (digits + rest)[1..] == digits[1..] + rest;
      DigitsEnd(digits[1..], rest);
    } else {
      assert digits + rest == rest;
    }
  }

  lemma LetterToPort()
    ensures ToPort("h", 80) == "v=1&host=h&port=80"
  {
    assert Decimal(80) == "80";
  }

  lemma LetterToCode(u: Uri)
    requires u == Uri(1, "h", 80, "p", "f", "s", "c", 9)
    ensures ToCode(u) == "v=1&host=h&port=80&pcid=p&fp=f&sid=s&code=c"
  {
    LetterToPort();
    assert CStr("h") == "h" && CStr("p") == "p" && CStr("f") == "f" && CStr("s") == "s" && CStr("c") == "c";
    assert Piece("pcid", "p") == "pcid=p" && Piece("fp", "f") == "fp=f";
    assert Piece("sid", "s") == "sid=s" && Piece("code", "c") == "code=c";
    assert "v=1&host=h&port=80" + "&" + "pcid=p" + "&" + "fp=f" + "&" + "sid=s" == "v=1&host=h&port=80&pcid=p&fp=f&sid=s";
  }

  /** A link as it is built, to the letter. */
  lemma LinkToTheLetter(u: Uri)
    requires u == Uri(1, "h", 80, "p", "f", "s", "c", 9)
    ensures Body(u) == "v=1&host=h&port=80&pcid=p&fp=f&sid=s&code=c&exp=9"
    ensures Link(u) == "smartmic://pair?" + Body(u)
  {
    LetterToCode(u);
    assert Decimal(9) == "9" && Piece("exp", "9") == "exp=9";
    assert Body(u) == "v=1&host=h&port=80&pcid=p&fp=f&sid=s&code=c&exp=9";
  }
}
