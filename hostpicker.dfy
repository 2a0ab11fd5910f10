/**
 * The SSH host picker of the browser client (srv/static/app.js): a host from
 * the list the server builds out of `~/.ssh/config` and a remote path are
 * written into the source or destination field as `host:path`.
 */
module HostPicker {
  import opened Wrappers
  import opened Text
  import opened SshConfig

  /**
   * `applySSHHost`: with no host selected nothing changes (None); otherwise
   * the target field becomes `host:path`, the path possibly empty.
   */
  function ApplySSHHost(selected: Option<string>, remotePath: string): (target: Option<string>)
    ensures target.None? <==> selected.None? || selected.value == ""
    ensures target.Some? ==> target.value == selected.value + ":" + remotePath
  {
    if selected.None? || selected.value == "" then None else Some(selected.value + ":" + remotePath)
  }

  /** The target splits back at its first colon into the host and the remote path, when the host name has no colon. */
  lemma SSHTargetParts(host: string, remotePath: string)
    requires host != "" && ':' !in host
    ensures var target := ApplySSHHost(Some(host), remotePath).value;
            IndexOf(target, ':') == |host| && target[..|host|] == host && target[|host| + 1..] == remotePath
  {
    var target := host + ":" + remotePath;
    assert target == host + [':'] + remotePath;
    IndexOfPrefix(host, ':', remotePath);
  }

  /** The field filled from a host keeps its colon after trimming, so validation takes that side as remote. */
  lemma SSHTargetIsRemote(host: string, remotePath: string)
    requires host != ""
    ensures ':' in Trim(ApplySSHHost(Some(host), remotePath).value)
  {
    var target := host + ":" + remotePath;
    assert target[|host|] == ':';
    TrimKeeps(target, |host|);
  }

  /** Every host the server lists from the SSH config can be applied. */
  lemma ListedHostApplies(lines: seq<string>, k: nat, remotePath: string)
    requires k < |ConfigHosts(Directives(lines))|
    ensures ApplySSHHost(Some(ConfigHosts(Directives(lines))[k].name), remotePath).Some?
  {
    OnlyNamedHosts(Directives(lines));
  }
}
