/**
 * `parseSSHConfig` (srv/handlers.go): the hosts offered by the SSH host
 * picker, read from the lines of ~/.ssh/config.
 *
 * Each line is first read as a directive; the loop then opens a new entry at
 * every `Host` line and fills in the entry's host name, user and port from the
 * lines that follow. The reference definition `ConfigHosts` describes the
 * result by blocks: every `Host` line starts a block that runs up to the next
 * one, and each block whose name is neither empty nor "*" gives one host,
 * whose fields are the last values set inside the block.
 */
module SshConfig {
  import opened Wrappers
  import opened Text

  datatype SSHHost = SSHHost(name: string, hostname: string, user: string, port: string)

  /** The three keys that set a field of the current entry. */
  datatype Field = HostNameField | UserField | PortField

  /** What one line of the file says. */
  datatype Directive =
    | HostLine(value: string)              // "host": opens a new entry
    | SetLine(field: Field, value: string) // "hostname", "user" or "port"
    | Skipped                              // blank, comment, a single word, or another key

  /** The words of a line that is neither blank nor a comment. */
  function Words(raw: string): (words: seq<string>)
    ensures Trim(raw) == [] || StartsWith(Trim(raw), "#") ==> words == []
    ensures forall k :: 0 <= k < |words| ==> IsToken(words[k])
  {
    var line := Trim(raw);
    if line == [] || StartsWith(line, "#") then [] else Fields(line)
  }

  /** One line of the file, as the body of the scan loop reads it. */
  function ParseLine(raw: string): Directive {
    var words := Words(raw);
    if |words| < 2 then Skipped
    else
      var key := ToLower(words[0]);
      var value := Join(words[1..], " ");
      if key == "host" then HostLine(value)
      else if key == "hostname" then SetLine(HostNameField, value)
      else if key == "user" then SetLine(UserField, value)
      else if key == "port" then SetLine(PortField, value)
      else Skipped
  }

  /**
   * A blank or comment line is skipped. A line with at least two words is a
   * directive exactly when its first word is, ignoring ASCII case, one of the
   * four keys; the value is the remaining words joined by single spaces, and
   * splitting it into fields gives those words back.
   */
  lemma LineMeaning(raw: string)
    ensures var d := ParseLine(raw);
            && (Trim(raw) == [] || StartsWith(Trim(raw), "#") ==> d.Skipped?)
            && (!d.Skipped? ==>
                  var words := Words(raw);
                  && |words| >= 2
                  && d.value == Join(words[1..], " ")
                  && Fields(d.value) == words[1..]
                  && IsTrimmed(d.value) && d.value != "")
            && (d.HostLine? <==> |Words(raw)| >= 2 && ToLower(Words(raw)[0]) == "host")
            && (d.SetLine? && d.field == HostNameField <==>
                  |Words(raw)| >= 2 && ToLower(Words(raw)[0]) == "hostname")
            && (d.SetLine? && d.field == UserField <==> |Words(raw)| >= 2 && ToLower(Words(raw)[0]) == "user")
            && (d.SetLine? && d.field == PortField <==> |Words(raw)| >= 2 && ToLower(Words(raw)[0]) == "port")
  {
    var words := Words(raw);
    if |words| >= 2 {
      FieldsOfJoin(words[1..]);
      JoinIsTrimmed(words[1..], " ");
      LengthOfJoin(words[1..], " ");
    }
  }

  /** An entry is emitted only if it has a name other than "*". */
  predicate Named(name: string) {
    name != "" && name != "*"
  }

  function Directives(lines: seq<string>): (ds: seq<Directive>)
    ensures |ds| == |lines|
    ensures forall k :: 0 <= k < |lines| ==> ds[k] == ParseLine(lines[k])
  {
    seq(|lines|, k requires 0 <= k < |lines| => ParseLine(lines[k]))
  }

  /** The value of the last line in `block` that sets `f`, or "" when none does. */
  function LastValue(block: seq<Directive>, f: Field): string
    decreases |block|
  {
    if block == [] then ""
    else if block[|block| - 1].SetLine? && block[|block| - 1].field == f then block[|block| - 1].value
    else LastValue(block[..|block| - 1], f)
  }

  /** The `hostname`, `user` or `port` case of the key switch. */
  function SetField(e: SSHHost, f: Field, v: string): (r: SSHHost)
    ensures r.name == e.name
  {
    match f
    case HostNameField => e.(hostname := v)
    case UserField => e.(user := v)
    case PortField => e.(port := v)
  }

  /** The entry a `Host name` line and the lines of its block give. */
  function EntryOf(name: string, block: seq<Directive>): SSHHost {
    SSHHost(name, LastValue(block, HostNameField), LastValue(block, UserField), LastValue(block, PortField))
  }

  /** Index of the last `Host` line, if any. */
  function LastHost(ds: seq<Directive>): (h: Option<nat>)
    ensures h.Some? ==> h.value < |ds| && ds[h.value].HostLine?
    ensures h.Some? ==> forall k :: h.value < k < |ds| ==> !ds[k].HostLine?
    ensures h.None? ==> forall k :: 0 <= k < |ds| ==> !ds[k].HostLine?
    decreases |ds|
  {
    if ds == [] then None
    else if ds[|ds| - 1].HostLine? then Some(|ds| - 1)
    else
      var h := LastHost(ds[..|ds| - 1]);
      assert forall k :: 0 <= k < |ds| - 1 ==> ds[..|ds| - 1][k] == ds[k];
      h
  }

  /** The hosts of a configuration, by blocks: those before the last `Host` line, then the last block's. */
  function ConfigHosts(ds: seq<Directive>): seq<SSHHost>
    decreases |ds|
  {
    match LastHost(ds)
    case None => []
    case Some(h) =>
      ConfigHosts(ds[..h]) + (if Named(ds[h].value) then [EntryOf(ds[h].value, ds[h + 1..])] else [])
  }

  /**
   * What the scan loop holds after the first `i` lines: no entry before the
   * first `Host` line; after it, the entry of the block still open, and the
   * hosts of the blocks already closed.
   */
  ghost predicate Scanned(ds: seq<Directive>, i: nat, hosts: seq<SSHHost>, current: Option<SSHHost>)
    requires i <= |ds|
  {
    match LastHost(ds[..i])
    case None => current == None && hosts == []
    case Some(h) => current == Some(EntryOf(ds[h].value, ds[h + 1..i])) && hosts == ConfigHosts(ds[..h])
  }

  /** The scan loop of `parseSSHConfig` over the lines of the file. */
  method ParseSSHConfig(lines: seq<string>) returns (hosts: seq<SSHHost>)
    ensures hosts == ConfigHosts(Directives(lines))
  {
    ghost var ds := Directives(lines);
    hosts := [];
    var current: Option<SSHHost> := None;
    for i := 0 to |lines|
      invariant Scanned(ds, i, hosts, current)
    {
      hosts, current := ScanLine(ds, i, hosts, current, ParseLine(lines[i]));
    }
    assert ds[..|lines|] == ds;
    if current.Some? && Named(current.value.name) {
      hosts := hosts + [current.value];
    }
  }

  /** The key switch for one line: a `Host` line emits the open entry if it is named and opens a new one. */
  method ScanLine(ghost ds: seq<Directive>, ghost i: nat, hosts: seq<SSHHost>, current: Option<SSHHost>, d: Directive)
    returns (hosts': seq<SSHHost>, current': Option<SSHHost>)
    requires i < |ds| && d == ds[i] && Scanned(ds, i, hosts, current)
    ensures Scanned(ds, i + 1, hosts', current')
  {
    hosts', current' := hosts, current;
    match d
    case HostLine(value) =>
      if current.Some? && Named(current.value.name) {
        hosts' := hosts + [current.value];
      }
      current' := Some(SSHHost(value, "", "", ""));
      ClosedBlock(ds, i);
    case SetLine(f, value) =>
      if current.Some? {
        current' := Some(SetField(current.value, f, value));
      }
      ExtendBlock(ds, i);
    case Skipped =>
      ExtendBlock(ds, i);
  }

  /** A `Host` line at `i` closes the block open before it and opens an empty one. */
  lemma ClosedBlock(ds: seq<Directive>, i: nat)
    requires i < |ds| && ds[i].HostLine?
    ensures LastHost(ds[..i + 1]) == Some(i)
    ensures ds[..i + 1][..i] == ds[..i] && ds[i + 1..i + 1] == []
    ensures LastHost(ds[..i]).None? ==> ConfigHosts(ds[..i]) == []
    ensures LastHost(ds[..i]).Some? ==>
              var h := LastHost(ds[..i]).value;
              ConfigHosts(ds[..i]) == ConfigHosts(ds[..h])
                + (if Named(ds[h].value) then [EntryOf(ds[h].value, ds[h + 1..i])] else [])
  {
    if LastHost(ds[..i]).Some? {
      var h := LastHost(ds[..i]).value;
      assert ds[..i][..h] == ds[..h];
      assert ds[..i][h + 1..] == ds[h + 1..i];
    }
  }

  /** A line other than `Host` at `i` extends the open block, setting at most one field of its entry. */
  lemma ExtendBlock(ds: seq<Directive>, i: nat)
    requires i < |ds| && !ds[i].HostLine?
    ensures LastHost(ds[..i + 1]) == LastHost(ds[..i])
    ensures LastHost(ds[..i]).Some? ==>
              var h := LastHost(ds[..i]).value;
              var e := EntryOf(ds[h].value, ds[h + 1..i]);
              EntryOf(ds[h].value, ds[h + 1..i + 1]) ==
                if ds[i].SetLine? then SetField(e, ds[i].field, ds[i].value) else e
  {
    assert ds[..i + 1][..i] == ds[..i];
    if LastHost(ds[..i]).Some? {
      var h := LastHost(ds[..i]).value;
      assert ds[h + 1..i + 1] == ds[h + 1..i] + [ds[i]];
      EntryOfSnoc(ds[h].value, ds[h + 1..i], ds[i]);
    }
  }

  /** One more line in a block changes at most the field it sets. */
  lemma EntryOfSnoc(name: string, block: seq<Directive>, d: Directive)
    ensures EntryOf(name, block + [d]) ==
              if d.SetLine? then SetField(EntryOf(name, block), d.field, d.value) else EntryOf(name, block)
  {
    assert (block + [d])[..|block|] == block;
  }

  /** No host named "" or "*" is ever offered. */
  lemma {:induction false} OnlyNamedHosts(ds: seq<Directive>)
    ensures forall k :: 0 <= k < |ConfigHosts(ds)| ==> Named(ConfigHosts(ds)[k].name)
    decreases |ds|
  {
    match LastHost(ds)
    case None =>
    case Some(h) => OnlyNamedHosts(ds[..h]);
  }

  /** The `Host` values that name an entry, in file order. */
  function HostNames(ds: seq<Directive>): seq<string>
    decreases |ds|
  {
    if ds == [] then []
    else (if ds[0].HostLine? && Named(ds[0].value) then [ds[0].value] else []) + HostNames(ds[1..])
  }

  function Names(hosts: seq<SSHHost>): (names: seq<string>)
    ensures |names| == |hosts| && forall k :: 0 <= k < |hosts| ==> names[k] == hosts[k].name
  {
    seq(|hosts|, k requires 0 <= k < |hosts| => hosts[k].name)
  }

  lemma {:induction false} HostNamesAppend(a: seq<Directive>, b: seq<Directive>)
    ensures HostNames(a + b) == HostNames(a) + HostNames(b)
    decreases |a|
  {
    if a != [] {
      assert (a + b)[1..] == a[1..] + b;
      HostNamesAppend(a[1..], b);
    } else {
      assert a + b == b;
    }
  }

  lemma {:induction false} NoHostNames(ds: seq<Directive>)
    requires forall k :: 0 <= k < |ds| ==> !ds[k].HostLine?
    ensures HostNames(ds) == []
    decreases |ds|
  {
    if ds != [] {
      NoHostNames(ds[1..]);
    }
  }

  /**
   * The hosts come out in file order, one for each `Host` line whose value is
   * neither empty nor "*", and carry that value as their name.
   */
  lemma {:induction false} HostsInFileOrder(ds: seq<Directive>)
    ensures Names(ConfigHosts(ds)) == HostNames(ds)
    decreases |ds|
  {
    match LastHost(ds)
    case None =>
      NoHostNames(ds);
    case Some(h) =>
      HostsInFileOrder(ds[..h]);
      assert ds == ds[..h] + ds[h..];
      HostNamesAppend(ds[..h], ds[h..]);
      assert ds[h..][1..] == ds[h + 1..];
      NoHostNames(ds[h + 1..]);
      var tail := if Named(ds[h].value) then [EntryOf(ds[h].value, ds[h + 1..])] else [];
      assert Names(ConfigHosts(ds[..h]) + tail) == Names(ConfigHosts(ds[..h])) + Names(tail);
  }

  /** The hosts of the blocks before the last `Host` line, then the last block's host when it is named. */
  lemma ConfigHostsUnfold(ds: seq<Directive>, h: nat)
    requires LastHost(ds) == Some(h)
    ensures ConfigHosts(ds) ==
              ConfigHosts(ds[..h]) + (if Named(ds[h].value) then [EntryOf(ds[h].value, ds[h + 1..])] else [])
  {
  }

  /** The last `Host` line of a concatenation is the second part's, if it has one. */
  lemma {:induction false} LastHostAppend(a: seq<Directive>, b: seq<Directive>)
    ensures LastHost(a + b) == if LastHost(b).Some? then Some(|a| + LastHost(b).value) else LastHost(a)
    decreases |b|
  {
    if b == [] {
      assert a + b == a;
    } else if !b[|b| - 1].HostLine? {
      assert (a + b)[..|a + b| - 1] == a + b[..|b| - 1];
      LastHostAppend(a, b[..|b| - 1]);
    }
  }

  /** Lines before the first `Host` line (a `HostName`, `User` or `Port` among them included) change nothing. */
  lemma {:induction false} PreambleIgnored(pre: seq<Directive>, ds: seq<Directive>)
    requires forall k :: 0 <= k < |pre| ==> !pre[k].HostLine?
    ensures ConfigHosts(pre + ds) == ConfigHosts(ds)
    decreases |ds|
  {
    var all := pre + ds;
    LastHostAppend(pre, ds);
    assert LastHost(pre) == None;
    match LastHost(ds)
    case None =>
    case Some(h) =>
      var g := |pre| + h;
      assert LastHost(all) == Some(g);
      assert all[g] == ds[h];
      assert all[..g] == pre + ds[..h];
      assert all[g + 1..] == ds[h + 1..];
      PreambleIgnored(pre, ds[..h]);
      ConfigHostsUnfold(ds, h);
      ConfigHostsUnfold(all, g);
  }

  /** Within a block, the last line that sets a field wins over the earlier ones. */
  lemma {:induction false} LaterValueWins(block: seq<Directive>, f: Field, v: string, rest: seq<Directive>)
    requires forall k :: 0 <= k < |rest| ==> !(rest[k].SetLine? && rest[k].field == f)
    ensures LastValue(block + [SetLine(f, v)] + rest, f) == v
    decreases |rest|
  {
    var all := block + [SetLine(f, v)] + rest;
    if rest != [] {
      assert all[..|all| - 1] == block + [SetLine(f, v)] + rest[..|rest| - 1];
      LaterValueWins(block, f, v, rest[..|rest| - 1]);
    }
  }
}
