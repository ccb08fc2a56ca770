// The network diagnostic endpoints (views/network_tools.py): the input sanitiser, the
// command line each tool builds from the request body, and the shape of the result of
// running it. Running the command is left to the environment: its outcome is an input.
module NetworkTools {
  import opened Wrappers
  import opened JsonValues
  import opened Text

  /** The characters `sanitize_input` keeps: `\w` (ASCII letters, digits, '_') and `. - : /`. */
  predicate AllowedChar(c: char)
  {
    IsAlpha(c) || IsDigit(c) || c == '_' || c == '.' || c == '-' || c == ':' || c == '/'
  }

  predicate AllAllowed(s: string)
  {
    forall i :: 0 <= i < |s| ==> AllowedChar(s[i])
  }

  /** `sanitize_input`: every character outside the allowed set is deleted. */
  function SanitizeInput(s: string): (r: string)
    ensures AllAllowed(r)
    ensures |r| <= |s|
  {
    if |s| == 0 then ""
    else (if AllowedChar(s[0]) then [s[0]] else "") + SanitizeInput(s[1..])
  }

  /** `a` is `b` with some characters deleted. */
  predicate IsSubsequence(a: string, b: string)
    decreases |b|
  {
    if |a| == 0 then true
    else if |b| == 0 then false
    else if a[0] == b[0] then IsSubsequence(a[1..], b[1..])
    else IsSubsequence(a, b[1..])
  }

  /** Sanitising only deletes characters. */
  lemma {:induction false} SanitizeIsSubsequence(s: string)
    ensures IsSubsequence(SanitizeInput(s), s)
  {
    if |s| > 0 {
      SanitizeIsSubsequence(s[1..]);
      var rest := SanitizeInput(s[1..]);
      if AllowedChar(s[0]) {
        assert SanitizeInput(s) == [s[0]] + rest;
        assert ([s[0]] + rest)[1..] == rest;
      } else {
        assert SanitizeInput(s) == rest;
        SubsequenceDropHead(rest, s);
      }
    }
  }

  lemma SubsequenceDropHead(a: string, b: string)
    requires |b| > 0 && IsSubsequence(a, b[1..])
    ensures IsSubsequence(a, b)
    decreases |a| + |b|
  {
    if |a| > 0 && a[0] == b[0] {
      SubsequenceTail(a, b[1..]);
    }
  }

  lemma SubsequenceTail(a: string, b: string)
    requires |a| > 0 && IsSubsequence(a, b)
    ensures IsSubsequence(a[1..], b)
    decreases |a| + |b|
  {
    if a[0] != b[0] {
      SubsequenceTail(a, b[1..]);
      SubsequenceDropHead(a[1..], b);
    } else if |a| > 1 {
      SubsequenceDropHead(a[1..], b);
    }
  }

  /** A string is left as it is exactly when all its characters are allowed. */
  lemma {:induction false} SanitizeFixed(s: string)
    ensures SanitizeInput(s) == s <==> AllAllowed(s)
  {
    if |s| > 0 {
      SanitizeFixed(s[1..]);
      if AllAllowed(s) {
        assert AllAllowed(s[1..]);
        assert s == [s[0]] + s[1..];
      }
    }
  }

  /** Sanitising twice is sanitising once. */
  lemma SanitizeIdempotent(s: string)
    ensures SanitizeInput(SanitizeInput(s)) == SanitizeInput(s)
  {
    SanitizeFixed(SanitizeInput(s));
  }

  /** Sanitising works character by character: it distributes over concatenation. */
  lemma {:induction false} SanitizeAppend(a: string, b: string)
    ensures SanitizeInput(a + b) == SanitizeInput(a) + SanitizeInput(b)
  {
    if |a| > 0 {
      assert (a + b)[0] == a[0];
      assert (a + b)[1..] == a[1..] + b;
      SanitizeAppend(a[1..], b);
    } else {
      assert a + b == b;
    }
  }

  // ---------------------------------------------------------------------------
  // str.split() on whitespace

  /** `(cur + s).split()`, where `cur` is a word being collected. */
  function WordsFrom(s: string, cur: string): seq<string>
    decreases |s|
  {
    if |s| == 0 then (if cur == "" then [] else [cur])
    else if IsSpace(s[0]) then (if cur == "" then [] else [cur]) + WordsFrom(s[1..], "")
    else WordsFrom(s[1..], cur + [s[0]])
  }

  /** Python's `s.split()`. */
  function Words(s: string): seq<string>
  {
    WordsFrom(s, "")
  }

  lemma {:induction false} WordsFromNoSpace(s: string, cur: string)
    requires forall i :: 0 <= i < |s| ==> !IsSpace(s[i])
    ensures WordsFrom(s, cur) == if cur + s == "" then [] else [cur + s]
    decreases |s|
  {
    if |s| > 0 {
      WordsFromNoSpace(s[1..], cur + [s[0]]);
      assert cur + [s[0]] + s[1..] == cur + s;
    } else {
      assert cur + s == cur;
    }
  }

  /** A sanitised filter has no whitespace, so it is passed as one argument, or none. */
  lemma SanitizedIsOneWord(s: string)
    ensures Words(SanitizeInput(s)) == if SanitizeInput(s) == "" then [] else [SanitizeInput(s)]
  {
    var t := SanitizeInput(s);
    assert forall i :: 0 <= i < |t| ==> !IsSpace(t[i]) by {
      forall i | 0 <= i < |t|
        ensures !IsSpace(t[i])
      {
        assert AllowedChar(t[i]);
      }
    }
    WordsFromNoSpace(t, "");
    assert "" + t == t;
  }

  // ---------------------------------------------------------------------------
  // The endpoints

  const MaxExecutionTime := 30

  /** `request.data.get(key, default)`. */
  function Get(data: map<string, Json>, key: string, default: Json): Json
  {
    if key in data then data[key] else default
  }

  /** The tools that take a target host or domain. */
  datatype TargetTool = Ping | Nmap | Dig | Nslookup | Traceroute | Whois | SslCheck

  /** What an endpoint does with a request: refuse it with status 400, run a command, or
      fail with a server error (a `TypeError` from a non-string input). */
  datatype Reply = BadRequest(error: string) | Run(command: seq<string>) | ServerError

  function MissingTargetMessage(t: TargetTool): string
  {
    match t
    case Dig => "Target domain is required"
    case SslCheck => "Target domain is required"
    case Whois => "Target domain or IP is required"
    case _ => "Target host is required"
  }

  /** The program each target tool runs. */
  function ProgramOf(t: TargetTool): string
  {
    match t
    case Ping => "ping"
    case Nmap => "nmap"
    case Dig => "dig"
    case Nslookup => "nslookup"
    case Traceroute => "traceroute"
    case Whois => "whois"
    case SslCheck => "openssl"
  }

  /** `re.sub(r'^https?://', '', target)`. */
  function StripScheme(s: string): (r: string)
    ensures StartsWith(s, "https://") ==> r == s[8..]
    ensures !StartsWith(s, "https://") && StartsWith(s, "http://") ==> r == s[7..]
    ensures !StartsWith(s, "https://") && !StartsWith(s, "http://") ==> r == s
  {
    if StartsWith(s, "https://") then s[8..]
    else if StartsWith(s, "http://") then s[7..]
    else s
  }

  /** The command line of a target tool, for an already sanitised target: the tool's own
      program pointed at the target (at port 443 of the scheme-free host for the certificate
      check), `dig` also given the record type. */
  function TargetCommand(t: TargetTool, target: string, recordType: string): (r: seq<string>)
    ensures |r| >= 2 && r[0] == ProgramOf(t)
    ensures t != SslCheck ==> target in r[1..]
    ensures t == SslCheck ==> StripScheme(target) + ":443" in r && StripScheme(target) in r
    ensures t == Dig ==> recordType in r[1..]
  {
    match t
    case Ping => ["ping", "-c", "4", target]
    case Nmap => ["nmap", "-sT", "-T3", "--top-ports", "100", target]
    case Dig => ["dig", target, recordType]
    case Nslookup => ["nslookup", target]
    case Traceroute => ["traceroute", "-m", "15", target]
    case Whois => ["whois", target]
    case SslCheck =>
      var host := StripScheme(target);
      ["openssl", "s_client", "-connect", host + ":443", "-servername", host, "-showcerts"]
  }

  /** `ping_tool`, `nmap_tool`, `dig_tool`, `nslookup_tool`, `traceroute_tool`, `whois_tool`
      and `ssl_check_tool`. */
  function TargetToolReply(t: TargetTool, data: map<string, Json>): (r: Reply)
    ensures !Truthy(Get(data, "target", JNull)) <==> r == BadRequest(MissingTargetMessage(t))
    ensures r.Run? ==> Get(data, "target", JNull).JStr?
    ensures (Get(data, "target", JNull).JStr? && Get(data, "target", JNull).s != ""
             && (t != Dig || Get(data, "record_type", JStr("A")).JStr?)) ==> r.Run?
  {
    var target := Get(data, "target", JNull);
    var recordType := Get(data, "record_type", JStr("A"));
    if !Truthy(target) then BadRequest(MissingTargetMessage(t))
    else if !target.JStr? then ServerError
    else if t == Dig && !recordType.JStr? then ServerError
    else Run(TargetCommand(t, SanitizeInput(target.s), if recordType.JStr? then SanitizeInput(recordType.s) else ""))
  }

  /** The flags netstat accepts. */
  predicate NetstatFlag(c: char)
  {
    c == 'n' || c == 't' || c == 'u' || c == 'l' || c == 'p' || c == 'a'
  }

  function FilterFlags(s: string): (r: string)
    ensures forall i :: 0 <= i < |r| ==> NetstatFlag(r[i])
    ensures IsSubsequence(r, s)
  {
    if |s| == 0 then ""
    else if NetstatFlag(s[0]) then
      var rest := FilterFlags(s[1..]);
      assert ([s[0]] + rest)[1..] == rest;
      [s[0]] + rest
    else
      var rest := FilterFlags(s[1..]);
      SubsequenceDropHead(rest, s);
      rest
  }

  /** The flags kept from a list of options: the one-character strings that are flags;
      `None` when an element is a list or an object (not hashable, so `in` raises). */
  function FilterFlagItems(xs: seq<Json>): (r: Option<string>)
    ensures r.Some? ==> forall i :: 0 <= i < |r.value| ==> NetstatFlag(r.value[i])
  {
    if |xs| == 0 then Some("")
    else if xs[0].JList? || xs[0].JObj? then None
    else
      var rest := FilterFlagItems(xs[1..]);
      if rest.None? then None
      else if xs[0].JStr? && |xs[0].s| == 1 && NetstatFlag(xs[0].s[0]) then Some(xs[0].s + rest.value)
      else rest
  }

  /** The keys of a JSON object in first-occurrence order, as a Python dict iterates them,
      each as a string value. */
  function DistinctKeys(fs: seq<(string, Json)>, seen: set<string>): seq<Json>
  {
    if |fs| == 0 then []
    else if fs[0].0 in seen then DistinctKeys(fs[1..], seen)
    else [JStr(fs[0].0)] + DistinctKeys(fs[1..], seen + {fs[0].0})
  }

  /** `''.join(opt for opt in options if opt in valid_options)`; `None` where Python raises
      `TypeError` (a number, a boolean or null is not iterable). */
  function NetstatFlags(options: Json): (r: Option<string>)
    ensures options.JStr? ==> r == Some(FilterFlags(options.s))
    ensures options.JNull? || options.JBool? || options.JInt? ==> r.None?
    ensures r.Some? ==> forall i :: 0 <= i < |r.value| ==> NetstatFlag(r.value[i])
  {
    match options
    case JStr(s) => Some(FilterFlags(s))
    case JList(xs) => FilterFlagItems(xs)
    case JObj(fs) => FilterFlagItems(DistinctKeys(fs, {}))
    case _ => None
  }

  /** `netstat_tool`. */
  function NetstatReply(data: map<string, Json>): (r: Reply)
    ensures var f := NetstatFlags(Get(data, "options", JStr("")));
            && (f.None? <==> r.ServerError?)
            && (f.Some? && f.value == "" ==> r == Run(["netstat"]))
            && (f.Some? && f.value != "" ==> r == Run(["netstat", "-" + f.value]))
  {
    var f := NetstatFlags(Get(data, "options", JStr("")));
    if f.None? then ServerError
    else Run(["netstat"] + (if f.value != "" then ["-" + f.value] else []))
  }

  /** `ip_route_tool`. */
  function IpRouteReply(): (r: Reply)
    ensures r.Run? && SafeCommand(r.command)
  {
    Run(["ip", "route", "show"])
  }

  const DefaultPacketCount := 25
  const MaxPacketCount := 100

  /** The packet count of `tcpdump_tool`: `int(count)` clamped to [1, 100], else 25. */
  function PacketCount(count: Json): (r: int)
    ensures 1 <= r <= MaxPacketCount
    ensures PyInt(count).None? ==> r == DefaultPacketCount
    ensures PyInt(count).Some? && 1 <= PyInt(count).value <= 100 ==> r == PyInt(count).value
    ensures PyInt(count).Some? && PyInt(count).value < 1 ==> r == 1
    ensures PyInt(count).Some? && PyInt(count).value > 100 ==> r == MaxPacketCount
  {
    var n := PyInt(count);
    if n.None? then DefaultPacketCount
    else if n.value < 1 then 1
    else if n.value > MaxPacketCount then MaxPacketCount
    else n.value
  }

  /** `tcpdump_tool`. */
  function TcpdumpReply(data: map<string, Json>): (r: Reply)
  {
    var iface := Get(data, "interface", JStr("any"));
    var filter := Get(data, "filter", JStr(""));
    var count := PacketCount(Get(data, "count", JInt(DefaultPacketCount)));
    if !iface.JStr? || !filter.JStr? then ServerError
    else
      var f := SanitizeInput(filter.s);
      Run(["tcpdump", "-i", SanitizeInput(iface.s), "-c", IntToString(count), "-n"] + Words(f))
  }

  /** The tcpdump command line: the sanitised interface, a count in [1, 100], and the
      sanitised filter as one argument when it is not empty. */
  lemma TcpdumpCommand(data: map<string, Json>)
    requires Get(data, "interface", JStr("any")).JStr? && Get(data, "filter", JStr("")).JStr?
    ensures var r := TcpdumpReply(data);
            var f := SanitizeInput(Get(data, "filter", JStr("")).s);
            && r.Run?
            && r.command[..6] == ["tcpdump", "-i", SanitizeInput(Get(data, "interface", JStr("any")).s), "-c",
                                  IntToString(PacketCount(Get(data, "count", JInt(DefaultPacketCount)))), "-n"]
            && r.command[6..] == (if f == "" then [] else [f])
  {
    SanitizedIsOneWord(Get(data, "filter", JStr("")).s);
  }

  // ---------------------------------------------------------------------------
  // No command argument carries a character the sanitiser would remove

  lemma NatTextAllowed(n: nat)
    ensures AllAllowed(NatToString(n))
    decreases n
  {
    if n >= 10 {
      NatTextAllowed(n / 10);
    }
  }

  lemma AppendAllowed(a: string, b: string)
    requires AllAllowed(a) && AllAllowed(b)
    ensures AllAllowed(a + b)
  {
    assert forall i :: 0 <= i < |a + b| ==> (a + b)[i] == if i < |a| then a[i] else b[i - |a|];
  }

  predicate SafeCommand(cmd: seq<string>)
  {
    forall k :: 0 <= k < |cmd| ==> AllAllowed(cmd[k])
  }

  lemma StripSchemeAllowed(s: string)
    requires AllAllowed(s)
    ensures AllAllowed(StripScheme(s))
  {
    if StartsWith(s, "https://") {
      assert forall i :: 0 <= i < |s[8..]| ==> s[8..][i] == s[i + 8];
    } else if StartsWith(s, "http://") {
      assert forall i :: 0 <= i < |s[7..]| ==> s[7..][i] == s[i + 7];
    }
  }

  /** The fixed arguments of the target tools are made of allowed characters. */
  lemma LiteralArgumentsAllowed()
    ensures AllAllowed("ping") && AllAllowed("-c") && AllAllowed("4")
    ensures AllAllowed("nmap") && AllAllowed("-sT") && AllAllowed("-T3") && AllAllowed("--top-ports") && AllAllowed("100")
    ensures AllAllowed("dig") && AllAllowed("nslookup") && AllAllowed("whois")
    ensures AllAllowed("traceroute") && AllAllowed("-m") && AllAllowed("15")
  {
  }

  /** The fixed arguments of the certificate check are made of allowed characters. */
  lemma SslLiteralsAllowed()
    ensures AllAllowed("openssl") && AllAllowed("s_client") && AllAllowed("-connect") && AllAllowed(":443")
    ensures AllAllowed("-servername") && AllAllowed("-showcerts")
  {
  }

  lemma SslCheckCommandSafe(target: string)
    requires AllAllowed(target)
    ensures SafeCommand(TargetCommand(SslCheck, target, ""))
  {
    SslLiteralsAllowed();
    StripSchemeAllowed(target);
    AppendAllowed(StripScheme(target), ":443");
  }

  lemma TargetCommandSafeFor(t: TargetTool, target: string, recordType: string)
    requires AllAllowed(target) && AllAllowed(recordType)
    ensures SafeCommand(TargetCommand(t, target, recordType))
  {
    LiteralArgumentsAllowed();
    if t == SslCheck {
      SslCheckCommandSafe(target);
      assert TargetCommand(t, target, recordType) == TargetCommand(SslCheck, target, "");
    }
  }

  /** Every argument a target tool passes to the command is made of allowed characters
      only; the command runs without a shell, so nothing can break out of its argument. */
  lemma TargetCommandSafe(t: TargetTool, data: map<string, Json>)
    ensures TargetToolReply(t, data).Run? ==> SafeCommand(TargetToolReply(t, data).command)
  {
    var target := Get(data, "target", JNull);
    var recordType := Get(data, "record_type", JStr("A"));
    if TargetToolReply(t, data).Run? {
      TargetCommandSafeFor(t, SanitizeInput(target.s), if recordType.JStr? then SanitizeInput(recordType.s) else "");
    }
  }

  lemma NetstatCommandSafe(data: map<string, Json>)
    ensures NetstatReply(data).Run? ==> SafeCommand(NetstatReply(data).command)
  {
    var f := NetstatFlags(Get(data, "options", JStr("")));
    if f.Some? && f.value != "" {
      AppendAllowed("-", f.value);
    }
  }

  lemma TcpdumpCommandSafe(data: map<string, Json>)
    ensures TcpdumpReply(data).Run? ==> SafeCommand(TcpdumpReply(data).command)
  {
    if TcpdumpReply(data).Run? {
      TcpdumpCommand(data);
      var count := PacketCount(Get(data, "count", JInt(DefaultPacketCount)));
      NatTextAllowed(count);
      assert IntToString(count) == NatToString(count);
      var cmd := TcpdumpReply(data).command;
      assert cmd == cmd[..6] + cmd[6..];
    }
  }

  // ---------------------------------------------------------------------------
  // execute_command

  /** How running the command ended, as the environment reports it. */
  datatype Outcome = Exited(returnCode: int, stdout: string, stderr: string) | TimedOut | Failed(reason: string)

  /** The dictionary `execute_command` returns; the timestamp is an integer. */
  datatype CommandResult = CommandResult(output: string, status: string, timestamp: int)

  function ExecuteCommand(o: Outcome, now: int): (r: CommandResult)
    ensures r.status == "success" <==> o.Exited? && o.returnCode == 0
    ensures r.status == "success" || r.status == "error"
    ensures o.Exited? && o.returnCode == 0 ==> r.output == o.stdout
    ensures o.Exited? && o.returnCode != 0 ==> r.output == "Error: " + o.stderr
    ensures r.timestamp == now
  {
    match o
    case Exited(code, out, err) =>
      if code == 0 then CommandResult(out, "success", now) else CommandResult("Error: " + err, "error", now)
    case TimedOut =>
      CommandResult("Command timed out after " + IntToString(MaxExecutionTime) + " seconds", "error", now)
    case Failed(reason) => CommandResult("Failed to execute command: " + reason, "error", now)
  }
}
