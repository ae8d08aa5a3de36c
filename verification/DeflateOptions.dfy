/** The options of the permessage-deflate extension: read from an extension header, and printed into one. */
module DeflateOptions {
  import opened Bytes
  import opened Numbers

  datatype Options = Options(
    enabled: bool, clientNoContextTakeover: bool, serverNoContextTakeover: bool,
    clientMaxWindowBits: int, serverMaxWindowBits: int)

  const ENABLED := "permessage-deflate"
  const CLIENT_NO_CONTEXT := "client_no_context_takeover"
  const SERVER_NO_CONTEXT := "server_no_context_takeover"
  const CLIENT_BITS := "client_max_window_bits="
  const SERVER_BITS := "server_max_window_bits="

  const Default: Options := Options(false, false, false, 15, 15)

  // ---------------------------------------------------------------- tokens

  predicate Without(s: string, c: char) {
    forall i :: 0 <= i < |s| ==> s[i] != c
  }

  predicate NoSpaces(s: string) {
    forall i :: 0 <= i < |s| ==> !IsSpace(s[i])
  }

  function Unspaced(s: string): (r: string) {
    if s == "" then "" else (if IsSpace(s[0]) then "" else [s[0]]) + Unspaced(s[1..])
  }

  /** The pieces of a text between semicolons; nothing counts as a piece after the last semicolon. */
  function Tokens(s: string): (r: seq<string>)
    decreases |s|
  {
    if s == "" then []
    else
      var n := FirstSemicolon(s);
      [s[..n]] + if n == |s| then [] else Tokens(s[n + 1..])
  }

  function FirstSemicolon(s: string): (n: nat)
    ensures n <= |s| && Without(s[..n], ';') && (n < |s| ==> s[n] == ';')
  {
    if s == "" || s[0] == ';' then 0 else 1 + FirstSemicolon(s[1..])
  }

  /** What follows the last equals sign. */
  function AfterLastEquals(s: string): (r: string) {
    if s == "" || s[|s| - 1] == '=' then ""
    else AfterLastEquals(s[..|s| - 1]) + [s[|s| - 1]]
  }

  // ---------------------------------------------------------------- reading

  function Clamp(x: int): (r: int)
    ensures 8 <= r <= 15 && (8 <= x <= 15 ==> r == x)
  {
    if x < 8 then 8 else if x > 15 then 15 else x
  }

  function Sanitized(x: int): (r: int) { if x == 8 then 9 else x }

  /** The number a stream extracts; from an empty value it extracts nothing and the variable keeps its `junk`. */
  function Extracted(value: string, junk: int): (x: int) { if value == "" then junk else Atoi(value) }

  function Apply(o: Options, token: string, junk: int): (r: Options) {
    if token == ENABLED then o.(enabled := true)
    else if token == SERVER_NO_CONTEXT then o.(serverNoContextTakeover := true)
    else if token == CLIENT_NO_CONTEXT then o.(clientNoContextTakeover := true)
    else if SERVER_BITS <= token then o.(serverMaxWindowBits := Clamp(Extracted(AfterLastEquals(token), junk)))
    else if CLIENT_BITS <= token then
      o.(clientMaxWindowBits := Sanitized(Clamp(Extracted(AfterLastEquals(token), junk))))
    else o
  }

  /** `junk(n)` is what the uninitialised number holds when `n` tokens are left. */
  function ApplyAll(o: Options, tokens: seq<string>, junk: nat -> int): (r: Options)
    decreases |tokens|
  {
    if tokens == [] then o else ApplyAll(Apply(o, tokens[0], junk(|tokens|)), tokens[1..], junk)
  }

  function Read(extension: string, junk: nat -> int): (r: Options) {
    ApplyAll(Default, Tokens(Unspaced(extension)), junk)
  }

  /** Whatever a peer sends, the window sizes stay in range, and the client's is never 8. */
  lemma {:induction false} AppliedInRange(o: Options, tokens: seq<string>, junk: nat -> int)
    requires 9 <= o.clientMaxWindowBits <= 15 && 8 <= o.serverMaxWindowBits <= 15
    ensures var r := ApplyAll(o, tokens, junk); 9 <= r.clientMaxWindowBits <= 15 && 8 <= r.serverMaxWindowBits <= 15
    decreases |tokens|
  {
    if tokens != [] { AppliedInRange(Apply(o, tokens[0], junk(|tokens|)), tokens[1..], junk); }
  }

  lemma ReadInRange(extension: string, junk: nat -> int)
    ensures var r := Read(extension, junk); 9 <= r.clientMaxWindowBits <= 15 && 8 <= r.serverMaxWindowBits <= 15
  {
    AppliedInRange(Default, Tokens(Unspaced(extension)), junk);
  }

  /** The flags are set by exactly the tokens that name them, in whatever order and number. */
  lemma {:induction false} AppliedFlags(o: Options, tokens: seq<string>, junk: nat -> int)
    ensures var r := ApplyAll(o, tokens, junk);
      && (r.enabled <==> o.enabled || ENABLED in tokens)
      && (r.clientNoContextTakeover <==> o.clientNoContextTakeover || CLIENT_NO_CONTEXT in tokens)
      && (r.serverNoContextTakeover <==> o.serverNoContextTakeover || SERVER_NO_CONTEXT in tokens)
    decreases |tokens|
  {
    if tokens != [] {
      AppliedFlags(Apply(o, tokens[0], junk(|tokens|)), tokens[1..], junk);
      assert tokens == [tokens[0]] + tokens[1..];
      FlagsDiffer();
    }
  }

  lemma FlagsDiffer()
    ensures ENABLED != CLIENT_NO_CONTEXT && ENABLED != SERVER_NO_CONTEXT && CLIENT_NO_CONTEXT != SERVER_NO_CONTEXT
  {
    assert ENABLED[0] != CLIENT_NO_CONTEXT[0] && ENABLED[0] != SERVER_NO_CONTEXT[0];
    assert CLIENT_NO_CONTEXT[0] != SERVER_NO_CONTEXT[0];
  }

  /** The size that a token gives: its number, brought into the range 8 to 15. */
  function SizeOf(token: string, junk: int): (n: int) {
    var value := AfterLastEquals(token);
    var x := if value == "" then junk else Atoi(value);
    if x <= 8 then 8 else if x >= 15 then 15 else x
  }

  lemma NamesBegin()
    ensures ENABLED[0] == 'p'
    ensures |CLIENT_NO_CONTEXT| > 7 && CLIENT_NO_CONTEXT[0] == 'c' && CLIENT_NO_CONTEXT[7] == 'n'
    ensures |SERVER_NO_CONTEXT| > 7 && SERVER_NO_CONTEXT[0] == 's' && SERVER_NO_CONTEXT[7] == 'n'
    ensures |CLIENT_BITS| > 7 && CLIENT_BITS[0] == 'c' && CLIENT_BITS[7] == 'm'
    ensures |SERVER_BITS| > 7 && SERVER_BITS[0] == 's' && SERVER_BITS[7] == 'm'
  {
  }

  lemma Names()
    ensures ENABLED == "permessage-deflate"
    ensures CLIENT_NO_CONTEXT == "client_no_context_takeover" && SERVER_NO_CONTEXT == "server_no_context_takeover"
    ensures CLIENT_BITS == "client_max_window_bits=" && SERVER_BITS == "server_max_window_bits="
  {
  }

  /** What each token does; one that is none of these does nothing. */
  lemma TokenEffect(o: Options, token: string, junk: int)
    ensures var r := Apply(o, token, junk);
      && r.enabled == (o.enabled || token == ENABLED)
      && r.clientNoContextTakeover == (o.clientNoContextTakeover || token == CLIENT_NO_CONTEXT)
      && r.serverNoContextTakeover == (o.serverNoContextTakeover || token == SERVER_NO_CONTEXT)
      && r.serverMaxWindowBits == (if SERVER_BITS <= token then SizeOf(token, junk) else o.serverMaxWindowBits)
      && r.clientMaxWindowBits
         == (if CLIENT_BITS <= token
             then if SizeOf(token, junk) == 8 then 9 else SizeOf(token, junk)
             else o.clientMaxWindowBits)
  {
    hide AfterLastEquals, Atoi, ENABLED, CLIENT_NO_CONTEXT, SERVER_NO_CONTEXT, CLIENT_BITS, SERVER_BITS;
    NamesBegin();
  }

  /** A connection that is told nothing has no compression, and the default sizes. */
  lemma NothingRead(junk: nat -> int)
    ensures Read("", junk) == Options(false, false, false, 15, 15)
  {
  }

  /** The flags read from an extension are exactly those that it names. */
  lemma FlagsRead(extension: string, junk: nat -> int)
    ensures var r, tokens := Read(extension, junk), Tokens(Unspaced(extension));
      && (r.enabled <==> "permessage-deflate" in tokens)
      && (r.clientNoContextTakeover <==> "client_no_context_takeover" in tokens)
      && (r.serverNoContextTakeover <==> "server_no_context_takeover" in tokens)
  {
    hide Tokens, Unspaced, ApplyAll;
    AppliedFlags(Default, Tokens(Unspaced(extension)), junk);
  }

  // ---------------------------------------------------------------- printing

  /** The parts of a header value, in order. */
  function Parts(o: Options): (r: seq<string>)
    requires o.clientMaxWindowBits >= 0 && o.serverMaxWindowBits >= 0
    ensures r != []
  {
    [ENABLED]
    + (if o.clientNoContextTakeover then [CLIENT_NO_CONTEXT] else [])
    + (if o.serverNoContextTakeover then [SERVER_NO_CONTEXT] else [])
    + [SERVER_BITS + Decimal(o.serverMaxWindowBits), CLIENT_BITS + Decimal(o.clientMaxWindowBits)]
  }

  function Body(parts: seq<string>): (r: string)
    requires parts != []
  {
    if |parts| == 1 then parts[0] else parts[0] + ("; " + Body(parts[1..]))
  }

  function Joined(parts: seq<string>): (r: string)
    requires parts != []
  {
    Body(parts) + "\r\n"
  }

  lemma BodyCons(p: string, rest: seq<string>)
    requires rest != []
    ensures Body([p] + rest) == p + "; " + Body(rest)
  {
    assert ([p] + rest)[1..] == rest;
    assert p + "; " + Body(rest) == p + ("; " + Body(rest));
  }

  lemma BodyText(a: string, b: string, hasB: bool, c: string, hasC: bool, d: string, e: string)
    ensures Body([a] + (if hasB then [b] else []) + (if hasC then [c] else []) + [d, e])
         == a + (if hasB then "; " + b else "") + (if hasC then "; " + c else "") + "; " + d + "; " + e
  {
    hide Body;
    assert Body([e]) == e by { OneBody(e); }
    BodyCons(d, [e]);
    assert [d] + [e] == [d, e];
    BodyCons(c, [d, e]);
    var most := if hasC then [c] + [d, e] else [d, e];
    BodyCons(b, most);
    var all := if hasB then [b] + most else most;
    BodyCons(a, all);
    assert [a] + (if hasB then [b] else []) + (if hasC then [c] else []) + [d, e] == [a] + all;
  }

  /** The header for every setting, in full. */
  lemma HeaderText(o: Options)
    requires o.clientMaxWindowBits >= 0 && o.serverMaxWindowBits >= 0
    ensures Joined(Parts(o))
         == "permessage-deflate"
            + (if o.clientNoContextTakeover then "; " + "client_no_context_takeover" else "")
            + (if o.serverNoContextTakeover then "; " + "server_no_context_takeover" else "")
            + "; " + ("server_max_window_bits=" + Decimal(o.serverMaxWindowBits))
            + "; " + ("client_max_window_bits=" + Decimal(o.clientMaxWindowBits)) + "\r\n"
  {
    hide Decimal, Body, ENABLED, CLIENT_NO_CONTEXT, SERVER_NO_CONTEXT, CLIENT_BITS, SERVER_BITS;
    Names();
    BodyText(ENABLED, CLIENT_NO_CONTEXT, o.clientNoContextTakeover, SERVER_NO_CONTEXT, o.serverNoContextTakeover,
      SERVER_BITS + Decimal(o.serverMaxWindowBits), CLIENT_BITS + Decimal(o.clientMaxWindowBits));
  }

  lemma {:induction false} BodySnoc(parts: seq<string>, p: string)
    requires parts != []
    ensures Body(parts + [p]) == Body(parts) + ("; " + p)
  {
    if |parts| == 1 {
      assert (parts + [p])[1..] == [p];
    } else {
      assert (parts + [p])[1..] == parts[1..] + [p];
      BodySnoc(parts[1..], p);
      Regrouped(parts[0], "; " + Body(parts[1..]), "; " + p);
      Regrouped("; ", Body(parts[1..]), "; " + p);
    }
  }

  // ---------------------------------------------------------------- reading what was printed

  lemma {:induction false} UnspacedAppend(a: string, b: string)
    ensures Unspaced(a + b) == Unspaced(a) + Unspaced(b)
  {
    if a == "" {
      assert a + b == b;
    } else {
      assert (a + b)[1..] == a[1..] + b;
      UnspacedAppend(a[1..], b);
    }
  }

  lemma {:induction false} UnspacedClean(s: string)
    requires NoSpaces(s)
    ensures Unspaced(s) == s
  {
    if s != "" {
      UnspacedClean(s[1..]);
      assert s == [s[0]] + s[1..];
    }
  }

  lemma UnspacedEnds()
    ensures Unspaced("\r\n") == "" && Unspaced("; ") == ";"
  {
    assert "\r\n"[1..] == "\n" && "\n"[1..] == "";
    assert Unspaced("\n") == "";
    assert "; "[1..] == " " && " "[1..] == "";
    assert Unspaced(" ") == "";
  }

  lemma {:induction false} FirstSemicolonOf(a: string, b: string)
    requires Without(a, ';')
    ensures FirstSemicolon(a + (";" + b)) == |a|
    ensures FirstSemicolon(a) == |a|
  {
    if a != "" {
      assert (a + (";" + b))[1..] == a[1..] + (";" + b);
      FirstSemicolonOf(a[1..], b);
    }
  }

  predicate IsToken(s: string) {
    s != "" && NoSpaces(s) && Without(s, ';')
  }

  lemma OneToken(p: string)
    requires IsToken(p)
    ensures Unspaced(p) == p && Tokens(p) == [p]
  {
    UnspacedClean(p);
    FirstSemicolonOf(p, "");
    assert p[..|p|] == p;
  }

  lemma UnspacedNext(p: string, rest: string)
    requires IsToken(p)
    ensures Unspaced(p + ("; " + rest)) == p + (";" + Unspaced(rest))
  {
    UnspacedAppend(p, "; " + rest);
    UnspacedAppend("; ", rest);
    UnspacedClean(p);
    UnspacedEnds();
  }

  lemma TokensNext(p: string, rest: string)
    requires IsToken(p)
    ensures Tokens(p + (";" + rest)) == [p] + Tokens(rest)
  {
    var s := p + (";" + rest);
    FirstSemicolonOf(p, rest);
    assert s[..|p|] == p && s[|p| + 1..] == rest;
  }

  lemma {:induction false} TokensOfBody(parts: seq<string>)
    requires parts != [] && forall i :: 0 <= i < |parts| ==> IsToken(parts[i])
    ensures Tokens(Unspaced(Body(parts))) == parts
    decreases |parts|
  {
    hide IsToken, Tokens, Unspaced;
    if |parts| == 1 {
      OneToken(parts[0]);
    } else {
      TokensOfBody(parts[1..]);
      UnspacedNext(parts[0], Body(parts[1..]));
      TokensNext(parts[0], Unspaced(Body(parts[1..])));
      assert parts == [parts[0]] + parts[1..];
    }
  }

  /** The tokens of a printed value are the parts it was printed from. */
  lemma TokensOfJoined(parts: seq<string>)
    requires parts != [] && forall i :: 0 <= i < |parts| ==> IsToken(parts[i])
    ensures Tokens(Unspaced(Joined(parts))) == parts
  {
    hide Body, IsToken, Tokens;
    TokensOfBody(parts);
    UnspacedAppend(Body(parts), "\r\n");
    UnspacedEnds();
    assert Unspaced(Body(parts)) + "" == Unspaced(Body(parts));
  }

  lemma DigitsAreTokens(n: nat)
    ensures NoSpaces(Decimal(n)) && Without(Decimal(n), ';') && Without(Decimal(n), '=')
  {
    forall i | 0 <= i < |Decimal(n)| ensures !IsSpace(Decimal(n)[i]) && Decimal(n)[i] != ';' && Decimal(n)[i] != '=' {
      assert IsDigit(Decimal(n)[i]);
    }
  }

  lemma NamesAreTokens()
    ensures IsToken(ENABLED) && IsToken(CLIENT_NO_CONTEXT) && IsToken(SERVER_NO_CONTEXT)
  {
  }

  lemma BitNamesAreTokens()
    ensures IsToken(CLIENT_BITS) && IsToken(SERVER_BITS)
  {
  }

  lemma BitsAreTokens(name: string, n: nat)
    requires IsToken(name)
    ensures IsToken(name + Decimal(n))
  {
    DigitsAreTokens(n);
  }

  lemma {:induction false} AfterEquals(name: string, value: string)
    requires name != "" && name[|name| - 1] == '=' && Without(value, '=')
    ensures AfterLastEquals(name + value) == value
  {
    if value == "" {
      assert name + value == name;
    } else {
      var n := |value| - 1;
      assert (name + value)[..|name| + n] == name + value[..n];
      AfterEquals(name, value[..n]);
    }
  }

  lemma ServerBits(o: Options, n: nat, junk: int)
    ensures Apply(o, SERVER_BITS + Decimal(n), junk) == o.(serverMaxWindowBits := Clamp(n))
  {
    DigitsAreTokens(n);
    AfterEquals(SERVER_BITS, Decimal(n));
    AtoiDecimal(n);
    var token := SERVER_BITS + Decimal(n);
    assert token[0] == 's' && token[7] == 'm';
    assert ENABLED[0] == 'p' && CLIENT_NO_CONTEXT[0] == 'c' && SERVER_NO_CONTEXT[7] == 'n';
  }

  lemma ClientBits(o: Options, n: nat, junk: int)
    ensures Apply(o, CLIENT_BITS + Decimal(n), junk) == o.(clientMaxWindowBits := Sanitized(Clamp(n)))
  {
    DigitsAreTokens(n);
    AfterEquals(CLIENT_BITS, Decimal(n));
    AtoiDecimal(n);
    var token := CLIENT_BITS + Decimal(n);
    assert token[0] == 'c' && token[7] == 'm';
    assert ENABLED[0] == 'p' && CLIENT_NO_CONTEXT[7] == 'n' && SERVER_NO_CONTEXT[0] == 's' && SERVER_BITS[0] == 's';
  }

  lemma Flags(o: Options, junk: int)
    ensures Apply(o, ENABLED, junk) == o.(enabled := true)
    ensures Apply(o, CLIENT_NO_CONTEXT, junk) == o.(clientNoContextTakeover := true)
    ensures Apply(o, SERVER_NO_CONTEXT, junk) == o.(serverNoContextTakeover := true)
  {
    FlagsDiffer();
  }

  lemma PartsAreTokens(o: Options)
    requires o.clientMaxWindowBits >= 0 && o.serverMaxWindowBits >= 0
    ensures forall i :: 0 <= i < |Parts(o)| ==> IsToken(Parts(o)[i])
  {
    hide IsToken;
    NamesAreTokens();
    BitNamesAreTokens();
    BitsAreTokens(SERVER_BITS, o.serverMaxWindowBits);
    BitsAreTokens(CLIENT_BITS, o.clientMaxWindowBits);
  }

  lemma ApplyFirst(o: Options, token: string, rest: seq<string>, junk: nat -> int)
    ensures ApplyAll(o, [token] + rest, junk) == ApplyAll(Apply(o, token, junk(|rest| + 1)), rest, junk)
  {
    assert ([token] + rest)[1..] == rest;
  }

  lemma AppliedParts(o: Options, junk: nat -> int)
    requires o.clientMaxWindowBits >= 0 && o.serverMaxWindowBits >= 0
    ensures ApplyAll(Default, Parts(o), junk) == Options(true, o.clientNoContextTakeover, o.serverNoContextTakeover,
      Sanitized(Clamp(o.clientMaxWindowBits)), Clamp(o.serverMaxWindowBits))
  {
    hide Apply, Clamp, Sanitized;
    var server, client := SERVER_BITS + Decimal(o.serverMaxWindowBits), CLIENT_BITS + Decimal(o.clientMaxWindowBits);
    var bits := [server, client];
    var flagged := (if o.serverNoContextTakeover then [SERVER_NO_CONTEXT] else []) + bits;
    var more := (if o.clientNoContextTakeover then [CLIENT_NO_CONTEXT] else []) + flagged;
    assert Parts(o) == [ENABLED] + more;
    assert !o.clientNoContextTakeover ==> more == flagged;
    assert !o.serverNoContextTakeover ==> flagged == bits;
    var o1 := Default.(enabled := true);
    Flags(Default, junk(|more| + 1));
    ApplyFirst(Default, ENABLED, more, junk);
    Flags(o1, junk(|flagged| + 1));
    ApplyFirst(o1, CLIENT_NO_CONTEXT, flagged, junk);
    var o2 := o1.(clientNoContextTakeover := o.clientNoContextTakeover);
    assert ApplyAll(Default, Parts(o), junk) == ApplyAll(o2, flagged, junk);
    Flags(o2, junk(|bits| + 1));
    ApplyFirst(o2, SERVER_NO_CONTEXT, bits, junk);
    var o3 := o2.(serverNoContextTakeover := o.serverNoContextTakeover);
    assert ApplyAll(o2, flagged, junk) == ApplyAll(o3, bits, junk);
    AppliedBits(o3, o.serverMaxWindowBits, o.clientMaxWindowBits, junk);
  }

  lemma AppliedBits(o: Options, server: nat, client: nat, junk: nat -> int)
    ensures ApplyAll(o, [SERVER_BITS + Decimal(server), CLIENT_BITS + Decimal(client)], junk)
      == o.(serverMaxWindowBits := Clamp(server), clientMaxWindowBits := Sanitized(Clamp(client)))
  {
    hide Apply, Clamp, Sanitized;
    var first, second := SERVER_BITS + Decimal(server), CLIENT_BITS + Decimal(client);
    ServerBits(o, server, junk(2));
    assert [first, second] == [first] + [second];
    ApplyFirst(o, first, [second], junk);
    var o1 := Apply(o, first, junk(2));
    ClientBits(o1, client, junk(1));
    assert [second] == [second] + [];
    ApplyFirst(o1, second, [], junk);
  }

  /** What a peer reads from a printed header value. */
  lemma ReadPrinted(o: Options, junk: nat -> int)
    requires o.clientMaxWindowBits >= 0 && o.serverMaxWindowBits >= 0
    ensures Read(Joined(Parts(o)), junk) == Options(true, o.clientNoContextTakeover, o.serverNoContextTakeover,
      Sanitized(Clamp(o.clientMaxWindowBits)), Clamp(o.serverMaxWindowBits))
  {
    hide Tokens, Unspaced, Joined, Parts, ApplyAll, IsToken, Clamp, Sanitized;
    PartsAreTokens(o);
    TokensOfJoined(Parts(o));
    AppliedParts(o, junk);
  }

  /** A header that was printed reads back as the same options exactly when the window sizes are in range. */
  lemma RoundTripIff(o: Options, junk: nat -> int)
    requires o.clientMaxWindowBits >= 0 && o.serverMaxWindowBits >= 0
    ensures Read(Joined(Parts(o)), junk) == o.(enabled := true)
      <==> 9 <= o.clientMaxWindowBits <= 15 && 8 <= o.serverMaxWindowBits <= 15
  {
    hide Read, Joined, Parts;
    ReadPrinted(o, junk);
  }

  // ---------------------------------------------------------------- the options object

  class WebSocketPerMessageDeflateOptions {
    var enabled: bool
    var clientNoContextTakeover: bool
    var serverNoContextTakeover: bool
    var clientMaxWindowBits: int
    var serverMaxWindowBits: int

    ghost function Value(): (o: Options)
      reads this
    {
      Options(enabled, clientNoContextTakeover, serverNoContextTakeover, clientMaxWindowBits, serverMaxWindowBits)
    }

    constructor (enabled: bool, clientNo: bool, serverNo: bool, clientBits: int, serverBits: int)
      requires 0 <= clientBits < 256 && 0 <= serverBits < 256
      ensures Value() == Options(enabled, clientNo, serverNo, Sanitized(clientBits), serverBits)
    {
      this.enabled := enabled;
      clientNoContextTakeover, serverNoContextTakeover := clientNo, serverNo;
      clientMaxWindowBits, serverMaxWindowBits := clientBits, serverBits;
      new;
      SanitizeClientMaxWindowBits();
    }

    method SanitizeClientMaxWindowBits()
      modifies this`clientMaxWindowBits
      ensures clientMaxWindowBits == Sanitized(old(clientMaxWindowBits))
    {
      if clientMaxWindowBits == 8 {
        clientMaxWindowBits := 9;
      }
    }

    constructor FromExtension(extension: string, junk: nat -> int)
      ensures Value() == Read(extension, junk)
    {
      enabled, clientNoContextTakeover, serverNoContextTakeover := false, false, false;
      clientMaxWindowBits, serverMaxWindowBits := 15, 15;
      new;
      var unspaced := RemoveSpaces(extension);
      ReadTokens(unspaced, junk);
    }

    /** The loop over the tokens of the extension. */
    method ReadTokens(s: string, junk: nat -> int)
      modifies this
      ensures Value() == ApplyAll(old(Value()), Tokens(s), junk)
    {
      hide Apply, FirstSemicolon;
      var rest := s;
      while rest != ""
        invariant ApplyAll(Value(), Tokens(rest), junk) == ApplyAll(old(Value()), Tokens(s), junk)
        decreases |rest|
      {
        var n := FindSemicolon(rest);
        var left := |Tokens(rest)|;
        ApplyFirst(Value(), rest[..n], if n == |rest| then [] else Tokens(rest[n + 1..]), junk);
        TakeToken(rest[..n], junk(left));
        rest := if n == |rest| then "" else rest[n + 1..];
      }
    }

    /** A local number is declared for each window size, and read from a stream that may be empty. */
    method TakeToken(token: string, junk: int)
      modifies this
      ensures Value() == Apply(old(Value()), token, junk)
    {
      FlagsDiffer();
      BitNamesDiffer(token);
      if token == ENABLED {
        enabled := true;
      }
      if token == SERVER_NO_CONTEXT {
        serverNoContextTakeover := true;
      }
      if token == CLIENT_NO_CONTEXT {
        clientNoContextTakeover := true;
      }
      if SERVER_BITS <= token {
        var x := Extracted(AfterLastEquals(token), junk);
        serverMaxWindowBits := Clamp(x);
      }
      if CLIENT_BITS <= token {
        var x := Extracted(AfterLastEquals(token), junk);
        clientMaxWindowBits := Clamp(x);
        SanitizeClientMaxWindowBits();
      }
    }

    method GenerateHeader() returns (header: string)
      requires clientMaxWindowBits >= 0 && serverMaxWindowBits >= 0
      ensures header == "Sec-WebSocket-Extensions: " + Joined(Parts(Value()))
    {
      hide Body;
      ghost var parts := [ENABLED];
      var value := ENABLED;
      OneBody(ENABLED);
      if clientNoContextTakeover {
        value, parts := Append(value, parts, CLIENT_NO_CONTEXT);
      }
      if serverNoContextTakeover {
        value, parts := Append(value, parts, SERVER_NO_CONTEXT);
      }
      value, parts := Append(value, parts, SERVER_BITS + Decimal(serverMaxWindowBits));
      value, parts := Append(value, parts, CLIENT_BITS + Decimal(clientMaxWindowBits));
      assert parts == Parts(Value());
      header := "Sec-WebSocket-Extensions: " + (value + "\r\n");
    }
  }

  /** Streams a separator and one more part. */
  method Append(value: string, ghost parts: seq<string>, p: string) returns (value': string, ghost parts': seq<string>)
    requires parts != [] && value == Body(parts)
    ensures parts' == parts + [p] && value' == Body(parts')
  {
    BodySnoc(parts, p);
    value', parts' := value + ("; " + p), parts + [p];
  }

  lemma OneBody(p: string)
    ensures Body([p]) == p
  {
  }

  lemma BitNamesDiffer(token: string)
    ensures SERVER_BITS <= token ==>
      token !in {ENABLED, CLIENT_NO_CONTEXT, SERVER_NO_CONTEXT} && !(CLIENT_BITS <= token)
    ensures CLIENT_BITS <= token ==> token !in {ENABLED, CLIENT_NO_CONTEXT, SERVER_NO_CONTEXT}
  {
    assert SERVER_BITS[0] == 's' && SERVER_BITS[7] == 'm' && CLIENT_BITS[0] == 'c' && CLIENT_BITS[7] == 'm';
    assert ENABLED[0] == 'p' && CLIENT_NO_CONTEXT[0] == 'c' && SERVER_NO_CONTEXT[0] == 's';
    assert CLIENT_NO_CONTEXT[7] == 'n' && SERVER_NO_CONTEXT[7] == 'n';
  }

  method FindSemicolon(s: string) returns (n: nat)
    ensures n == FirstSemicolon(s)
  {
    n := 0;
    while n < |s| && s[n] != ';'
      invariant n <= |s| && FirstSemicolon(s) == n + FirstSemicolon(s[n..])
    {
      assert s[n..][1..] == s[n + 1..];
      n := n + 1;
    }
  }

  lemma UnspacedFrom(s: string, i: nat)
    requires i < |s|
    ensures Unspaced(s[i..]) == if IsSpace(s[i]) then Unspaced(s[i + 1..]) else [s[i]] + Unspaced(s[i + 1..])
  {
    assert s[i..][1..] == s[i + 1..];
  }

  lemma UnspacedNothing()
    ensures Unspaced("") == ""
  {
  }

  method RemoveSpaces(s: string) returns (out: string)
    ensures out == Unspaced(s)
  {
    hide Unspaced, IsSpace;
    out := "";
    assert s[0..] == s && s[|s|..] == "";
    UnspacedNothing();
    for i := 0 to |s|
      invariant out + Unspaced(s[i..]) == Unspaced(s)
    {
      UnspacedFrom(s, i);
      if !IsSpace(s[i]) { out := out + [s[i]]; }
    }
  }
}
