/** The process state of the web server: the module-level update status and
    the effects its handlers have caused so far. The handlers that change
    something are methods that take their effects one at a time, as the
    source issues its commands; each is proved to do what the matching reply
    function of `Plans` describes. Nothing serialises the handlers and no
    request is ever refused because an update is running. */
module Server {
  import opened Results
  import opened Text
  import opened Plans

  datatype UpdateStatus = Idle | Updating

  /** The status value the `/status` endpoint reports. */
  function StatusText(s: UpdateStatus): (text: string)
    ensures text == "idle" <==> s == Idle
    ensures text == "updating" <==> s == Updating
  {
    match s
    case Idle => "idle"
    case Updating => "updating"
  }

  /** The status after an `/update` request: every POST that carries a
      bundle sets Updating, whatever the status was; nothing sets Idle. */
  function StatusAfterUpdate(s: UpdateStatus, m: HttpMethod, bundleSent: bool): UpdateStatus
  {
    if m == Post && bundleSent then Updating else s
  }

  /** A request to one of the handlers that change something. */
  datatype Request =
    | WifiRequest(wifiMethod: HttpMethod, selectedWifi: Option<string>, password: Option<string>)
    | ComposeRequest(composeServices: seq<string>, composeAction: Option<string>)
    | DockerRequest(dockerServices: seq<string>, dockerAction: Option<string>)
    | SshKeyRequest(sshMethod: HttpMethod, userkey: Option<string>)
    | UpdateRequest(updateMethod: HttpMethod, bundleSent: bool)

  /** The status after one request. */
  function NextStatus(s: UpdateStatus, req: Request): UpdateStatus
  {
    match req
    case UpdateRequest(m, bundleSent) => StatusAfterUpdate(s, m, bundleSent)
    case _ => s
  }

  /** The reply to one request. It does not depend on the status. */
  function ReplyTo(req: Request): Reply
  {
    match req
    case WifiRequest(m, ssid, password) => WifiReply(m, ssid, password)
    case ComposeRequest(services, action) => ComposeReply(services, action)
    case DockerRequest(services, action) => DockerReply(services, action)
    case SshKeyRequest(m, key) => SshReply(m, key)
    case UpdateRequest(m, bundleSent) => UpdateReply(m, bundleSent)
  }

  /** The status after a run of requests, one after another. */
  function StatusAfterAll(s: UpdateStatus, reqs: seq<Request>): UpdateStatus
    decreases reqs
  {
    if reqs == [] then s else StatusAfterAll(NextStatus(s, reqs[0]), reqs[1..])
  }

  /** The effects of a run of requests, one after another. */
  function EffectsOf(reqs: seq<Request>): seq<Effect>
  {
    if reqs == [] then [] else ReplyTo(reqs[0]).effects + EffectsOf(reqs[1..])
  }

  /** Serving the request at `i` takes one step of both folds. */
  lemma RunStep(s: UpdateStatus, reqs: seq<Request>, i: nat)
    requires i < |reqs|
    ensures StatusAfterAll(s, reqs[i..]) == StatusAfterAll(NextStatus(s, reqs[i]), reqs[i + 1..])
    ensures EffectsOf(reqs[i..]) == ReplyTo(reqs[i]).effects + EffectsOf(reqs[i + 1..])
  {
    assert reqs[i..][1..] == reqs[i + 1..];
  }

  lemma AppendAssoc(a: seq<Effect>, b: seq<Effect>, c: seq<Effect>)
    ensures (a + b) + c == a + (b + c)
  {
  }

  predicate IsUpload(req: Request)
  {
    req.UpdateRequest? && req.updateMethod == Post && req.bundleSent
  }

  /** Once updating, always updating. */
  lemma {:induction false} UpdatingIsFinal(reqs: seq<Request>)
    ensures StatusAfterAll(Updating, reqs) == Updating
  {
    if reqs != [] {
      UpdatingIsFinal(reqs[1..]);
    }
  }

  /** From Idle, a run ends Updating exactly when it holds an update POST
      with a bundle. */
  lemma {:induction false} UpdatingIffUpload(reqs: seq<Request>)
    ensures StatusAfterAll(Idle, reqs) == Updating <==> exists i :: 0 <= i < |reqs| && IsUpload(reqs[i])
  {
    if reqs != [] {
      if IsUpload(reqs[0]) {
        UpdatingIsFinal(reqs[1..]);
      } else {
        UpdatingIffUpload(reqs[1..]);
        if exists i :: 0 <= i < |reqs| && IsUpload(reqs[i]) {
          var i :| 0 <= i < |reqs| && IsUpload(reqs[i]);
          assert IsUpload(reqs[1..][i - 1]);
        }
        if exists i :: 0 <= i < |reqs[1..]| && IsUpload(reqs[1..][i]) {
          var i :| 0 <= i < |reqs[1..]| && IsUpload(reqs[1..][i]);
          assert IsUpload(reqs[i + 1]);
        }
      }
    }
  }

  /** An update POST with a bundle is answered 200 and installs and
      reboots, whatever the status. */
  lemma UploadReply()
    ensures ReplyTo(UpdateRequest(Post, true)).response.code == 200
    ensures ReplyTo(UpdateRequest(Post, true)).effects == UpdateSteps
  {
  }

  /** A second update is not refused: after a run that started an update,
      another update POST with a bundle keeps the server updating, is
      answered 200 and installs and reboots again. */
  lemma SecondUpdateNotRefused(first: seq<Request>)
    requires exists i :: 0 <= i < |first| && IsUpload(first[i])
    ensures StatusAfterAll(Idle, first) == Updating
    ensures NextStatus(StatusAfterAll(Idle, first), UpdateRequest(Post, true)) == Updating
    ensures ReplyTo(UpdateRequest(Post, true)).response.code == 200
    ensures ReplyTo(UpdateRequest(Post, true)).effects == UpdateSteps
  {
    UpdatingIffUpload(first);
    UploadReply();
  }

  /** The running server: `update_status` and the effects issued so far. */
  class App {
    var updateStatus: UpdateStatus
    var effects: seq<Effect>

    /** The server starts idle, having done nothing. */
    constructor ()
      ensures updateStatus == Idle && effects == []
    {
      updateStatus := Idle;
      effects := [];
    }

    /** `/status`: reads the status, changes nothing. */
    function Status(): (text: string)
      reads this
      ensures text == "idle" <==> updateStatus == Idle
      ensures text == "updating" <==> updateStatus == Updating
    {
      StatusText(updateStatus)
    }

    /** One `os.popen`, `time.sleep` or file write, in order. */
    method Issue(e: Effect)
      modifies this
      ensures effects == old(effects) + [e]
      ensures updateStatus == old(updateStatus)
    {
      effects := effects + [e];
    }

    method Wifi(m: HttpMethod, selectedWifi: Option<string>, password: Option<string>) returns (resp: Response)
      modifies this
      ensures effects == old(effects) + WifiReply(m, selectedWifi, password).effects
      ensures resp == WifiReply(m, selectedWifi, password).response
      ensures updateStatus == old(updateStatus)
    {
      if m == Post {
        var ssid := SsidLine(Render(selectedWifi));
        var psk := PskLine(Render(password));
        if psk != "" {
          // opened for writing, never closed: the lines stay buffered
          Issue(Truncate(WpaFile));
          var config := WpaConfig(ssid, psk);
          Issue(Run("systemctl daemon-reload"));
          Issue(Run("systemctl stop wpa_supplicant-ap.service"));
          Issue(Run("systemctl enable --now wpa_supplicant.service"));
          Issue(Sleep(5));
          Issue(Run("systemctl enable wpa_supplicant@wlan0.service"));
          Issue(Run("systemctl restart wpa_supplicant@wlan0.service"));
          // the file object is released as the handler returns
          Issue(Write(WpaFile, config));
        }
      }
      resp := Response(200, "wifi");
    }

    method Compose(services: seq<string>, action: Option<string>) returns (resp: Response)
      modifies this
      ensures effects == old(effects) + ComposePlan(services, action)
      ensures resp == ComposeReply(services, action).response
      ensures updateStatus == old(updateStatus)
    {
      var i := 0;
      while i < |services|
        invariant 0 <= i <= |services|
        invariant effects == old(effects) + ComposePlan(services[..i], action)
        invariant updateStatus == old(updateStatus)
      {
        var service := services[i];
        if action == Some("pull") {
          Issue(Run(PullCommand(service)));
          Issue(Run(RecreateCommand(service)));
          Issue(Run(PruneCommand));
        } else if action == Some("create") {
          Issue(Run(RecreateCommand(service)));
        }
        assert DropLast(services[..i + 1]) == services[..i];
        i := i + 1;
      }
      assert services[..i] == services;
      resp := Response(200, "docker");
    }

    method Docker(services: seq<string>, action: Option<string>) returns (resp: Response)
      modifies this
      ensures effects == old(effects) + DockerPlan(services, action)
      ensures resp == DockerReply(services, action).response
      ensures updateStatus == old(updateStatus)
    {
      var i := 0;
      while i < |services|
        invariant 0 <= i <= |services|
        invariant effects == old(effects) + DockerPlan(services[..i], action)
        invariant updateStatus == old(updateStatus)
      {
        Issue(Run(DockerCommand(action, services[i])));
        assert DropLast(services[..i + 1]) == services[..i];
        i := i + 1;
      }
      assert services[..i] == services;
      resp := Response(404, "docker-custom");
    }

    method SshSetKey(m: HttpMethod, userkey: Option<string>) returns (resp: Response)
      modifies this
      ensures effects == old(effects) + SshReply(m, userkey).effects
      ensures resp == SshReply(m, userkey).response
      ensures updateStatus == old(updateStatus)
    {
      if m == Post {
        var key := userkey;
        if key != Some("") {
          Issue(Run("mkdir -p ~/.ssh"));
          Issue(Run(AppendKeyCommand(Render(key))));
          Issue(Run("chmod 600 ~/.ssh/authorized_keys"));
          return Response(200, "ssh-setkey");
        }
      }
      resp := Response(404, "ssh-setkey");
    }

    method Update(m: HttpMethod, bundleSent: bool) returns (resp: Response)
      modifies this
      ensures updateStatus == StatusAfterUpdate(old(updateStatus), m, bundleSent)
      ensures old(updateStatus) == Updating ==> updateStatus == Updating
      ensures effects == old(effects) + UpdateReply(m, bundleSent).effects
      ensures resp == UpdateReply(m, bundleSent).response
    {
      if m == Post {
        if !bundleSent {
          // request.files["bundle"] raises before the status is touched
          return Response(400, "");
        }
        updateStatus := Updating;
        // an uploaded file object never equals "", so it is always installed
        Issue(Save(BundleFile));
        Issue(Run("rauc install " + BundleFile));
        Issue(Run("reboot"));
      }
      resp := Response(200, "update");
    }

    /** Serves one request with the handler its route names. */
    method Serve(req: Request) returns (resp: Response)
      modifies this
      ensures updateStatus == NextStatus(old(updateStatus), req)
      ensures effects == old(effects) + ReplyTo(req).effects
      ensures resp == ReplyTo(req).response
    {
      match req
      case WifiRequest(m, ssid, password) => resp := Wifi(m, ssid, password);
      case ComposeRequest(services, action) => resp := Compose(services, action);
      case DockerRequest(services, action) => resp := Docker(services, action);
      case SshKeyRequest(m, key) => resp := SshSetKey(m, key);
      case UpdateRequest(m, bundleSent) => resp := Update(m, bundleSent);
    }

    /** Serves requests one after another. */
    method ServeAll(reqs: seq<Request>) returns (resps: seq<Response>)
      modifies this
      ensures updateStatus == StatusAfterAll(old(updateStatus), reqs)
      ensures effects == old(effects) + EffectsOf(reqs)
      ensures |resps| == |reqs|
      ensures forall i :: 0 <= i < |reqs| ==> resps[i] == ReplyTo(reqs[i]).response
    {
      resps := [];
      var i := 0;
      assert reqs[i..] == reqs;
      while i < |reqs|
        invariant 0 <= i <= |reqs|
        invariant |resps| == i
        invariant forall j :: 0 <= j < i ==> resps[j] == ReplyTo(reqs[j]).response
        invariant StatusAfterAll(updateStatus, reqs[i..]) == StatusAfterAll(old(updateStatus), reqs)
        invariant effects + EffectsOf(reqs[i..]) == old(effects) + EffectsOf(reqs)
      {
        RunStep(updateStatus, reqs, i);
        ghost var before := effects;
        var resp := Serve(reqs[i]);
        AppendAssoc(before, ReplyTo(reqs[i]).effects, EffectsOf(reqs[i + 1..]));
        resps := resps + [resp];
        i := i + 1;
      }
      assert reqs[i..] == [];
    }
  }
}
