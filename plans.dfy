/** What the state-changing handlers do, as values: the ordered effects a
    request causes (shell commands, file writes, the settle pause) and the
    HTTP reply it gets. The request is given by its decoded fields; a field
    read with `.get` that is missing is `None`, and an f-string prints it as
    "None". */
module Plans {
  import opened Results
  import opened Text

  datatype HttpMethod = Get | Post | Head

  /** One observable step of a handler, in the order it takes effect. */
  datatype Effect =
    | Run(command: string)                    // os.popen(command).read()
    | Sleep(seconds: nat)                     // time.sleep(seconds)
    | Truncate(path: string)                  // open(path, "w") empties the file
    | Write(path: string, lines: seq<string>) // buffered lines reach the file
    | Save(path: string)                      // the uploaded bundle saved here

  /** The lines of the file at `path` after `effects`, starting from
      `initial`: opening it for writing empties it, and written lines are
      appended when they reach it. */
  function FileAfter(effects: seq<Effect>, path: string, initial: seq<string>): seq<string>
  {
    if effects == [] then initial
    else
      var before := FileAfter(DropLast(effects), path, initial);
      match Last(effects)
      case Truncate(p) => if p == path then [] else before
      case Write(p, lines) => if p == path then before + lines else before
      case _ => before
  }

  predicate Touches(e: Effect, path: string)
  {
    (e.Truncate? || e.Write?) && e.path == path
  }

  /** Effects that do not touch `path` leave its contents alone. */
  lemma {:induction false} FileAfterUntouched(pre: seq<Effect>, mid: seq<Effect>, path: string, initial: seq<string>)
    requires forall i :: 0 <= i < |mid| ==> !Touches(mid[i], path)
    ensures FileAfter(pre + mid, path, initial) == FileAfter(pre, path, initial)
  {
    if mid != [] {
      assert DropLast(pre + mid) == pre + DropLast(mid);
      assert Last(pre + mid) == Last(mid);
      FileAfterUntouched(pre, DropLast(mid), path, initial);
    } else {
      assert pre + mid == pre;
    }
  }

  datatype Response = Response(code: int, body: string)

  datatype Reply = Reply(effects: seq<Effect>, response: Response)

  const ComposeFile := "/home/root/mapio/docker-compose.yml"
  const WpaFile := "/etc/wpa_supplicant/wpa_supplicant-wlan0.conf"
  const BundleFile := "/var/volatile/bundle.raucb"

  /** Python's f"{v}" of a value read with `.get`. */
  function Render(v: Option<string>): string
  {
    match v
    case None => "None"
    case Some(s) => s
  }

  // ---------------------------------------------------------------------
  // /wifi
  // ---------------------------------------------------------------------

  function SsidLine(ssid: string): string
  {
    "  ssid=\"" + ssid + "\"\n"
  }

  /** The psk line is what the handler compares with "": it is never empty. */
  function PskLine(psk: string): (line: string)
    ensures line != ""
    ensures |line| == |psk| + 9
  {
    "  psk=\"" + psk + "\"\n"
  }

  /** The twelve strings written to the wpa_supplicant configuration; the
      second one holds two lines because two literals are adjacent. */
  function WpaConfig(ssidLine: string, pskLine: string): (lines: seq<string>)
    ensures |lines| == 12
    ensures lines[3] == "network={\n" && lines[11] == "}\n"
    ensures lines[4] == ssidLine && lines[5] == pskLine
  {
    [ "ctrl_interface=/var/run/wpa_supplicant\n",
      "ctrl_interface_group=0\n" + "update_config=1\n",
      "\n",
      "network={\n",
      ssidLine,
      pskLine,
      "  key_mgmt=WPA-PSK\n",
      "  proto=WPA2\n",
      "  pairwise=CCMP TKIP\n",
      "  group=CCMP TKIP\n",
      "  scan_ssid=1\n",
      "}\n" ]
  }

  /** The station-mode restart after the configuration is written. */
  const WifiRestart: seq<Effect> := [
    Run("systemctl daemon-reload"),
    Run("systemctl stop wpa_supplicant-ap.service"),
    Run("systemctl enable --now wpa_supplicant.service"),
    Sleep(5),
    Run("systemctl enable wpa_supplicant@wlan0.service"),
    Run("systemctl restart wpa_supplicant@wlan0.service")
  ]

  /** The file object emptied at line 99 is neither closed nor flushed: the
      file is emptied when it is emptied, and the configuration reaches it only
      when the handler returns and the object is released, after the
      restart. */
  function WifiReply(m: HttpMethod, selectedWifi: Option<string>, password: Option<string>): (r: Reply)
    ensures r.response == Response(200, "wifi")
  {
    if m == Post then
      var ssid := SsidLine(Render(selectedWifi));
      var psk := PskLine(Render(password));
      if psk != "" then
        Reply([Truncate(WpaFile)] + WifiRestart + [Write(WpaFile, WpaConfig(ssid, psk))], Response(200, "wifi"))
      else Reply([], Response(200, "wifi"))
    else Reply([], Response(200, "wifi"))
  }

  /** The guard on the formatted psk line never fails: every POST, with an
      empty or a missing password too, empties the configuration, restarts
      the station services in their fixed order and leaves the configuration
      to be written last; GET does nothing. */
  lemma WifiPostAlwaysApplies(m: HttpMethod, selectedWifi: Option<string>, password: Option<string>)
    ensures var r := WifiReply(m, selectedWifi, password);
      if m == Post then
        r.effects == [Truncate(WpaFile)] + WifiRestart
                     + [Write(WpaFile, WpaConfig(SsidLine(Render(selectedWifi)), PskLine(Render(password))))]
      else r.effects == []
  {
  }

  /** Every step of the restart runs while the configuration file is empty;
      only after the last one does the file hold the twelve lines. */
  lemma WifiRestartSeesEmptyConfig(selectedWifi: Option<string>, password: Option<string>, initial: seq<string>)
    ensures var effects := WifiReply(Post, selectedWifi, password).effects;
      |effects| == |WifiRestart| + 2
      && (forall j :: 1 <= j <= |WifiRestart| + 1 ==> FileAfter(effects[..j], WpaFile, initial) == [])
      && FileAfter(effects, WpaFile, initial)
         == WpaConfig(SsidLine(Render(selectedWifi)), PskLine(Render(password)))
  {
    var config := WpaConfig(SsidLine(Render(selectedWifi)), PskLine(Render(password)));
    var effects := WifiReply(Post, selectedWifi, password).effects;
    var emptied := [Truncate(WpaFile)];
    assert FileAfter(emptied, WpaFile, initial) == [] by {
      assert DropLast(emptied) == [];
    }
    assert forall i :: 0 <= i < |WifiRestart| ==> !Touches(WifiRestart[i], WpaFile);
    forall j | 1 <= j <= |WifiRestart| + 1
      ensures FileAfter(effects[..j], WpaFile, initial) == []
    {
      assert effects[..j] == emptied + WifiRestart[..j - 1];
      FileAfterUntouched(emptied, WifiRestart[..j - 1], WpaFile, initial);
    }
    assert effects[..|WifiRestart| + 1] == emptied + WifiRestart;
    assert DropLast(effects) == effects[..|WifiRestart| + 1];
  }

  // ---------------------------------------------------------------------
  // /compose POST
  // ---------------------------------------------------------------------

  function PullCommand(service: string): string
  {
    "docker compose -f " + ComposeFile + " pull " + Lower(service)
  }

  function RecreateCommand(service: string): string
  {
    "docker compose -f " + ComposeFile + " up -d --force-recreate " + Lower(service)
  }

  const PruneCommand := "docker system prune -f"

  /** The commands one selected service gets. */
  function ServiceSteps(service: string, action: Option<string>): seq<Effect>
  {
    if action == Some("pull") then [Run(PullCommand(service)), Run(RecreateCommand(service)), Run(PruneCommand)]
    else if action == Some("create") then [Run(RecreateCommand(service))]
    else []
  }

  /** The commands of a compose POST: each selected service's steps, in the
      order the services are given. */
  function ComposePlan(services: seq<string>, action: Option<string>): seq<Effect>
  {
    if services == [] then []
    else ComposePlan(DropLast(services), action) + ServiceSteps(Last(services), action)
  }

  function ComposeReply(services: seq<string>, action: Option<string>): Reply
  {
    Reply(ComposePlan(services, action), Response(200, "docker"))
  }

  /** "pull" gives each service, in order, its pull, its forced recreate
      and a prune. */
  lemma {:induction false} ComposePullPlan(services: seq<string>)
    ensures var plan := ComposePlan(services, Some("pull"));
      |plan| == 3 * |services|
      && forall i :: 0 <= i < |services| ==>
        plan[3 * i] == Run(PullCommand(services[i]))
        && plan[3 * i + 1] == Run(RecreateCommand(services[i]))
        && plan[3 * i + 2] == Run(PruneCommand)
  {
    if services != [] {
      var front := DropLast(services);
      ComposePullPlan(front);
      var plan := ComposePlan(services, Some("pull"));
      var prev := ComposePlan(front, Some("pull"));
      assert plan == prev + ServiceSteps(Last(services), Some("pull"));
      forall i | 0 <= i < |services|
        ensures plan[3 * i] == Run(PullCommand(services[i]))
        ensures plan[3 * i + 1] == Run(RecreateCommand(services[i]))
        ensures plan[3 * i + 2] == Run(PruneCommand)
      {
        if i < |front| {
          assert services[i] == front[i];
        }
      }
    }
  }

  /** "create" gives each service, in order, exactly its forced recreate. */
  lemma {:induction false} ComposeCreatePlan(services: seq<string>)
    ensures var plan := ComposePlan(services, Some("create"));
      |plan| == |services|
      && forall i :: 0 <= i < |services| ==> plan[i] == Run(RecreateCommand(services[i]))
  {
    if services != [] {
      var front := DropLast(services);
      ComposeCreatePlan(front);
      assert forall i :: 0 <= i < |front| ==> services[i] == front[i];
    }
  }

  /** Any other action issues nothing, whatever the services. */
  lemma {:induction false} ComposeOtherPlan(services: seq<string>, action: Option<string>)
    requires action != Some("pull") && action != Some("create")
    ensures ComposePlan(services, action) == []
  {
    if services != [] {
      ComposeOtherPlan(DropLast(services), action);
    }
  }

  // ---------------------------------------------------------------------
  // /docker POST
  // ---------------------------------------------------------------------

  function DockerCommand(action: Option<string>, service: string): string
  {
    "docker " + Render(action) + " " + Lower(service)
  }

  function DockerPlan(services: seq<string>, action: Option<string>): seq<Effect>
  {
    if services == [] then []
    else DockerPlan(DropLast(services), action) + [Run(DockerCommand(action, Last(services)))]
  }

  /** A docker POST runs its commands and then falls through to the 404 at
      the end of the handler. */
  function DockerReply(services: seq<string>, action: Option<string>): Reply
  {
    Reply(DockerPlan(services, action), Response(404, "docker-custom"))
  }

  /** One `docker <action> <service>` per selected service, in order. */
  lemma {:induction false} DockerPlanAt(services: seq<string>, action: Option<string>)
    ensures var plan := DockerPlan(services, action);
      |plan| == |services|
      && forall i :: 0 <= i < |services| ==> plan[i] == Run(DockerCommand(action, services[i]))
  {
    if services != [] {
      var front := DropLast(services);
      DockerPlanAt(front, action);
      assert forall i :: 0 <= i < |front| ==> services[i] == front[i];
    }
  }

  // ---------------------------------------------------------------------
  // /ssh-setkey
  // ---------------------------------------------------------------------

  function AppendKeyCommand(key: string): string
  {
    "echo " + key + " >> ~/.ssh/authorized_keys"
  }

  /** A POST whose key is not "" (a missing key is None, which is not "")
      appends it; everything else is a 404 that does nothing. */
  function SshReply(m: HttpMethod, userkey: Option<string>): (r: Reply)
    ensures r.response.body == "ssh-setkey"
    ensures r.response.code == 200 <==> m == Post && userkey != Some("")
    ensures r.response.code != 200 ==> r.response.code == 404 && r.effects == []
    ensures r.response.code == 200 ==>
      r.effects == [Run("mkdir -p ~/.ssh"), Run(AppendKeyCommand(Render(userkey))),
                    Run("chmod 600 ~/.ssh/authorized_keys")]
  {
    if m == Post && userkey != Some("") then
      Reply([Run("mkdir -p ~/.ssh"), Run(AppendKeyCommand(Render(userkey))),
             Run("chmod 600 ~/.ssh/authorized_keys")], Response(200, "ssh-setkey"))
    else Reply([], Response(404, "ssh-setkey"))
  }

  // ---------------------------------------------------------------------
  // /update
  // ---------------------------------------------------------------------

  /** Install the saved bundle and reboot, whatever the installer reports. */
  const UpdateSteps: seq<Effect> := [
    Save(BundleFile),
    Run("rauc install " + BundleFile),
    Run("reboot")
  ]

  /** `bundleSent` says whether the multipart body has a `bundle` field;
      without it `request.files["bundle"]` aborts the request with 400. */
  function UpdateReply(m: HttpMethod, bundleSent: bool): (r: Reply)
    ensures m == Post && !bundleSent <==> r.response.code == 400
    ensures r.response.code != 400 ==> r.response == Response(200, "update")
    ensures r.effects != [] <==> m == Post && bundleSent
    ensures m == Post && bundleSent ==> r.effects == UpdateSteps
  {
    if m == Post then
      if bundleSent then Reply(UpdateSteps, Response(200, "update"))
      else Reply([], Response(400, ""))
    else Reply([], Response(200, "update"))
  }
}
