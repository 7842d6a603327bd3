/** InvokeSSH: the command line handed to /usr/bin/ssh. */
module Ssh {
  import opened Wrappers
  import opened Faults
  import opened Display
  import opened Trace

  const SshPath := "/usr/bin/ssh"
  const NetCat := "ncat"

  /** The fixed text around the bastion in the proxy directive; "%h %p" is
      what the format's "%%h %%p" prints. */
  const ProxyPrefix := "ProxyCommand=ssh "
  const ProxySuffix := " " + NetCat + " %h %p"

  /** Recovers the bastion from a proxy directive, if it is one. */
  function ProxyBastion(cmd: string): Option<string> {
    if |cmd| >= |ProxyPrefix| + |ProxySuffix|
       && cmd[..|ProxyPrefix|] == ProxyPrefix
       && cmd[|cmd| - |ProxySuffix|..] == ProxySuffix
    then Some(cmd[|ProxyPrefix|..|cmd| - |ProxySuffix|])
    else None
  }

  /** The -o option value that makes ssh reach the host through `bastion`
      by running ncat there. */
  function ProxyCommand(bastion: string): (cmd: string)
    ensures |cmd| == |ProxyPrefix| + |bastion| + |ProxySuffix|
    ensures cmd[..|ProxyPrefix|] == "ProxyCommand=ssh "
    ensures cmd[|cmd| - |ProxySuffix|..] == " ncat %h %p"
    ensures ProxyBastion(cmd) == Some(bastion)
  {
    var cmd := ProxyPrefix + bastion + ProxySuffix;
    assert cmd[..|ProxyPrefix|] == ProxyPrefix;
    assert cmd[|cmd| - |ProxySuffix|..] == ProxySuffix;
    assert cmd[|ProxyPrefix|..|cmd| - |ProxySuffix|] == bastion;
    cmd
  }

  /** argv for ssh: the program path, the proxy directive when a bastion is
      given, the host, then the pass-through arguments unchanged. */
  function Argv(cliArgs: seq<string>, bastion: string, host: string): (argv: seq<string>)
    ensures |argv| == |cliArgs| + (if bastion == "" then 2 else 4)
    ensures argv[0] == SshPath
    ensures argv[|argv| - |cliArgs| - 1] == host
    ensures argv[|argv| - |cliArgs|..] == cliArgs
    ensures bastion == "" ==> argv == [SshPath, host] + cliArgs
    ensures bastion != "" ==> argv[1] == "-o" && ProxyBastion(argv[2]) == Some(bastion)
  {
    var proxy := if bastion != "" then ["-o", ProxyCommand(bastion)] else [];
    [SshPath] + proxy + [host] + cliArgs
  }

  /** What an ssh command line asks for, read back from argv. */
  datatype Invocation = Invocation(bastion: string, host: string, cliArgs: seq<string>)

  /** Splits an argv carrying `argCount` pass-through arguments into its
      bastion ("" when there is no proxy directive), host and arguments. */
  function ParseArgv(argv: seq<string>, argCount: nat): Option<Invocation> {
    if |argv| == argCount + 2 && argv[0] == SshPath then
      Some(Invocation("", argv[1], argv[2..]))
    else if |argv| == argCount + 4 && argv[0] == SshPath && argv[1] == "-o" then
      match ProxyBastion(argv[2])
      case Some(b) => if b != "" then Some(Invocation(b, argv[3], argv[4..])) else None
      case None => None
    else None
  }

  /** Argv loses nothing: bastion, host and arguments can be read back. */
  lemma ArgvRoundTrip(cliArgs: seq<string>, bastion: string, host: string)
    ensures ParseArgv(Argv(cliArgs, bastion, host), |cliArgs|) == Some(Invocation(bastion, host, cliArgs))
  {
    var argv := Argv(cliArgs, bastion, host);
    if bastion != "" {
      assert argv[4..] == cliArgs;
    } else {
      assert argv[2..] == cliArgs;
    }
  }

  /** ...and every argv that reads back is the one Argv builds for it. */
  lemma ParseArgvSound(argv: seq<string>, argCount: nat)
    requires ParseArgv(argv, argCount).Some?
    ensures var inv := ParseArgv(argv, argCount).value;
      |inv.cliArgs| == argCount && Argv(inv.cliArgs, inv.bastion, inv.host) == argv
  {
    var inv := ParseArgv(argv, argCount).value;
    if inv.bastion != "" {
      var cmd := argv[2];
      assert ProxyCommand(inv.bastion) == cmd by {
        assert cmd == cmd[..|ProxyPrefix|] + inv.bastion + cmd[|cmd| - |ProxySuffix|..];
      }
      assert argv == [SshPath] + ["-o", cmd] + [inv.host] + inv.cliArgs;
    } else {
      assert argv == [SshPath] + [inv.host] + inv.cliArgs;
    }
  }

  /** With no bastion there is no -o option ahead of the host. */
  lemma NoBastionNoProxy(cliArgs: seq<string>, host: string)
    ensures var argv := Argv(cliArgs, "", host);
      forall i :: 0 <= i < |argv| - |cliArgs| ==> argv[i] != "-o" || (i == 1 && host == "-o")
  {
  }

  /** InvokeSSH: exec /usr/bin/ssh with the argv for the instance's private
      address; if exec returns with `execError`, the process dies of it. */
  function InvokeSSH(cliArgs: seq<string>, bastion: string, instance: Instance, execError: Option<string>): (tr: seq<Event>)
    ensures |tr| >= 1 && tr[0].Exec?
    ensures tr[0].path == SshPath && |tr[0].argv| > 0 && tr[0].argv[0] == tr[0].path
    ensures ParseArgv(tr[0].argv, |cliArgs|) == Some(Invocation(bastion, instance.privateIP, cliArgs))
    ensures execError.None? ==> |tr| == 1
    ensures execError.Some? ==> |tr| == 2 && tr[1] == Fail(ExecFailed(execError.value))
    ensures Finished(tr)
  {
    var argv := Argv(cliArgs, bastion, instance.privateIP);
    ArgvRoundTrip(cliArgs, bastion, instance.privateIP);
    [Exec(SshPath, argv)] + match execError
                            case None => []
                            case Some(e) => [Fail(ExecFailed(e))]
  }
}
