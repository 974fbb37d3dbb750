# MAPIO web server back end: handler logic in Dafny

The MAPIO back end (`src/mapio_webserver_back/app/server.py`) is a small Flask
application. Its handlers shell out to `docker`, `iw`, `systemctl`, `rauc` and
helper scripts. Around those calls sits deterministic logic, and that logic is
what this project models:

- **Read-only parsers.** The inventory handlers turn tool output into JSON
  rows. They cover the compose manifest listing and the `docker ps` rows with
  their grouped port scan (both under `/compose` and `/docker` GET), the
  `/docker-update` version rows, the `/getScan` SSID list and the `/logs`
  lines. They are methods with loops over `splitlines()`, in module
  `Inventory` (`inventory.dfy`). Tool output is their input string.
- **Command planners.** The mutating handlers are `/compose` POST,
  `/docker` POST, `/wifi`, `/ssh-setkey` and `/update`. In module `Plans`
  (`plans.dfy`), each one is a function from its decoded request fields to
  two things: the ordered list of effects it causes, and the HTTP response.
  An effect is a shell command, a file write, the settle pause or the saved
  bundle.
- **The process state.** Module `Server` (`server.dfy`) holds class `App`.
  Its fields are the global `update_status` and the log of effects issued so
  far. Each handler is a method that issues its effects one at a time, and is
  proved to match its planner. The update status is also modelled as a pure
  state machine over runs of requests.
- **Python string semantics.** Module `Text` (`text.dfy`) gives the handlers
  what they rely on: `str.split(sep)`, `str.split()`, `str.splitlines()`,
  `rstrip`, `lower` and `", ".join`. Module `Results` (`results.dfy`) holds
  `Option` and `Result`.

A request field read with `.get` is an `Option<string>`. A missing field is
`None`, which an f-string prints as `"None"`. A Python exception that a parser
can raise (failed tuple unpacking, an index past the end of `split`, calling
`split` on a non-string image) is a `Failure` carrying a `Fault`.

The behaviour modelled is the behaviour of the code:

- there is no mutation lock, and a second update is never refused;
- the wifi handler compares the formatted `  psk="…"` line with `""`, so its
  guard never fails;
- the `docker ps` status is only the second space-separated token;
- the SSID de-duplication and the 20-line log bound are done by the shell
  pipelines, not by the Python, so the model claims neither;
- an update POST without a `bundle` part fails with 400 *before*
  `update_status` is set, because `request.files["bundle"]` raises first. An
  uploaded file object never equals `""`, so every POST that has the part
  installs and reboots.

## Model

| member | source | states |
|---|---|---|
| Text.SplitOn | src/mapio_webserver_back/app/server.py:189 | `str.split(sep)` always gives at least one piece. No piece contains the separator. There is more than one piece exactly when the separator occurs |
| Text.SplitOnFirst | src/mapio_webserver_back/app/server.py:189 | the first piece of `split(sep)` is a prefix of the text, followed by the separator or by the end |
| Text.SplitOnLast | src/mapio_webserver_back/app/server.py:190 | the last piece of `split(sep)` is a suffix of the text, preceded by the separator or by the start |
| Text.JoinSplitOn | src/mapio_webserver_back/app/server.py:189-190 | joining the pieces of `split(sep)` with the separator gives back the text |
| Text.SplitOnPrefix | src/mapio_webserver_back/app/server.py:228-231 | splitting `a + sep + b`, where `a` has no separator, gives `a` first and then the pieces of `b` |
| Text.SplitLines | src/mapio_webserver_back/app/server.py:141 | `splitlines()` gives no more lines than characters, and no lines exactly for the empty text |
| Text.SplitLinesNoBreak | src/mapio_webserver_back/app/server.py:141-142 | no line of `splitlines()` holds any of Python's line-break characters |
| Text.SplitLinesTerminated | src/mapio_webserver_back/app/server.py:311-314 | lines without breaks, each ended by `"\n"` and split again, come back unchanged, empty lines included |
| Text.TerminatedSplitLines | src/mapio_webserver_back/app/server.py:311-314 | for `"\n"`-separated text, the lines ended by `"\n"` rebuild the text, with at most a final `"\n"` added |
| Text.SplitWhitespaceFields | src/mapio_webserver_back/app/server.py:223 | the fields of `split()` are non-empty and hold no whitespace |
| Text.SplitWhitespaceBlank | src/mapio_webserver_back/app/server.py:223 | text made only of whitespace splits into no fields |
| Text.SplitWhitespaceWord | src/mapio_webserver_back/app/server.py:223 | leading whitespace, then a word, then text that is empty or starts with whitespace: `split()` gives the word first and then the fields of the rest, so the fields are exactly the maximal non-blank runs in order |
| Text.SplitWhitespacePair | src/mapio_webserver_back/app/server.py:223 | `"name port"` with two non-blank words splits into exactly `[name, port]` |
| Text.RStrip | src/mapio_webserver_back/app/server.py:142 | `rstrip(c)` is a prefix that does not end in `c`, and only copies of `c` were removed |
| Text.RStripLine | src/mapio_webserver_back/app/server.py:142 | `rstrip("\n")` leaves a line from `splitlines()` unchanged |
| Text.Lower | src/mapio_webserver_back/app/server.py:166 | `lower()` keeps the length, leaves no ASCII capital, maps each ASCII capital to its lower-case letter and leaves every other character unchanged |
| Inventory.ImageName | src/mapio_webserver_back/app/server.py:189 | the image name is the text before the first `:` (the whole image when there is none) and holds no `:` |
| Inventory.ImageVersion | src/mapio_webserver_back/app/server.py:190 | the version is the text after the last `:` and holds no `:`. With no `:` it is `"latest"` |
| Inventory.ImageSplitRoundTrip | src/mapio_webserver_back/app/server.py:189-190 | for an image with exactly one `:`, name + `":"` + version is the image |
| Inventory.AbsentImage | src/mapio_webserver_back/app/server.py:188-190 | a service without an `image` key is listed with image `"None"` and version `"latest"` |
| Inventory.ListCompose | src/mapio_webserver_back/app/server.py:187-192 | the listing succeeds exactly when every image is a string. It then has one entry per service, in manifest order, named by the service key. Otherwise it fails on the first service whose image is not a string |
| Inventory.PortsOfStep | src/mapio_webserver_back/app/server.py:221-224 | one more scan line appends at most that line's port to the container it names |
| Inventory.AbsentContainerNoPorts | src/mapio_webserver_back/app/server.py:232 | a container that no scan line names has no ports, and its port string is `""` |
| Inventory.GroupStep | src/mapio_webserver_back/app/server.py:223-224 | appending to the default-dict keeps every container's list equal to the ports of the lines read so far |
| Inventory.GroupPorts | src/mapio_webserver_back/app/server.py:219-224 | grouping succeeds exactly when every scan line unpacks into two fields. Each container's list is then its ports in line order, and a missing container reads as empty. Otherwise it fails on the first bad line |
| Inventory.DockerRows | src/mapio_webserver_back/app/server.py:226-234 | one row per `docker ps` line, in order, with the first and second space-separated tokens and the joined ports. It fails on the first line with fewer than two tokens |
| Inventory.DockerView | src/mapio_webserver_back/app/server.py:215-237 | the GET side of `/docker`: a bad scan line is reported before a bad `docker ps` line. On success each row carries the ports that the scan lines list for its container |
| Inventory.StatusIsOneWord | src/mapio_webserver_back/app/server.py:228-231 | for `"web Up 3 days"` the row is named `web` and its status is only `Up` |
| Inventory.VersionView | src/mapio_webserver_back/app/server.py:251-258 | one row per helper output line, in order, naming the first and second tokens. It fails on the first line without a second token |
| Inventory.ScanView | src/mapio_webserver_back/app/server.py:140-145 | one SSID per output line, in order, each the line's text before its first `;`, with nothing dropped or de-duplicated |
| Inventory.LogView | src/mapio_webserver_back/app/server.py:310-314 | one log entry per output line, in order, each exactly that line, empty lines included and with no bound on the count |
| Plans.PskLine | src/mapio_webserver_back/app/server.py:92 | the formatted psk line is never `""`, whatever the password |
| Plans.WpaConfig | src/mapio_webserver_back/app/server.py:100-115 | the configuration is twelve strings. `network={` is the 4th, followed by the ssid line and then the psk line, and `}` closes the list |
| Plans.WifiReply | src/mapio_webserver_back/app/server.py:86-125 | `/wifi` always answers 200 `"wifi"` |
| Plans.WifiPostAlwaysApplies | src/mapio_webserver_back/app/server.py:91-123 | every POST empties the configuration file, runs daemon-reload, stop AP, enable --now, the 5-second pause, enable wlan0 and restart wlan0, in that order, and only then has the configuration written, even with an empty or missing password. GET does nothing |
| Plans.WifiRestartSeesEmptyConfig | src/mapio_webserver_back/app/server.py:97-123 | every restart step of a POST runs while the configuration file is empty; the twelve configuration lines are the file's contents only after the last step |
| Plans.ComposePullPlan | src/mapio_webserver_back/app/server.py:163-170 | `"pull"` gives three commands per service, in the given order: pull, forced recreate and prune, with the name lower-cased |
| Plans.ComposeCreatePlan | src/mapio_webserver_back/app/server.py:163-174 | `"create"` gives exactly one forced recreate per service, in order |
| Plans.ComposeOtherPlan | src/mapio_webserver_back/app/server.py:175-177 | any other action, including a missing one, issues nothing for any service |
| Plans.DockerPlanAt | src/mapio_webserver_back/app/server.py:211-213 | `/docker` POST runs one `docker <action> <service>` per service, in order |
| Plans.SshReply | src/mapio_webserver_back/app/server.py:291-302 | 200 exactly for a POST whose key is not `""` (a missing key counts): mkdir, append, chmod in that order. Otherwise 404 with no command |
| Plans.UpdateReply | src/mapio_webserver_back/app/server.py:272-282 | 400 exactly for a POST without a bundle, otherwise 200 `"update"`. It saves, installs and reboots exactly for a POST with a bundle |
| Server.StatusText | src/mapio_webserver_back/app/server.py:21-25 | the status reads `"idle"` exactly when idle and `"updating"` exactly when updating |
| Server.UpdatingIsFinal | src/mapio_webserver_back/app/server.py:275-276 | once updating, no run of requests makes the server idle again |
| Server.UpdatingIffUpload | src/mapio_webserver_back/app/server.py:272-276 | starting idle, a run of requests ends updating exactly when it contains an update POST with a bundle |
| Server.SecondUpdateNotRefused | src/mapio_webserver_back/app/server.py:272-282 | after an update has started, another update POST is still answered 200 and installs and reboots again |
| Server.App.constructor | src/mapio_webserver_back/app/server.py:28 | the server starts idle, with no effects issued |
| Server.App.Status | src/mapio_webserver_back/app/server.py:62 | `/status` reports the current update status and changes nothing |
| Server.App.Issue | src/mapio_webserver_back/app/server.py:279-280 | issuing an effect appends it to the log and leaves the status alone |
| Server.App.Wifi | src/mapio_webserver_back/app/server.py:86-125 | the handler issues exactly the effects of `WifiReply`, in order (empty the file, restart, then the buffered write as the handler returns), and leaves the status unchanged |
| Server.App.Compose | src/mapio_webserver_back/app/server.py:163-179 | the loop over the services issues exactly the compose plan and answers 200 `"docker"` |
| Server.App.Docker | src/mapio_webserver_back/app/server.py:211-213 | the loop issues exactly the docker plan and falls through to 404 `"docker-custom"` |
| Server.App.SshSetKey | src/mapio_webserver_back/app/server.py:291-302 | the handler issues exactly the effects of `SshReply` and gives its response |
| Server.App.Update | src/mapio_webserver_back/app/server.py:272-282 | a POST with a bundle sets the status to updating, whatever it was, and saves, installs and reboots. Without a bundle the answer is 400 and nothing changes. Updating is never undone |
| Server.App.Serve | src/mapio_webserver_back/app/server.py:55-302 | serving one request moves the status and the effect log exactly as the pure state machine says |
| Server.App.ServeAll | src/mapio_webserver_back/app/server.py:55-302 | serving a run of requests in turn ends in the state the pure state machine gives, and answers each request with its reply |

## Left out

- HTTP plumbing is not modelled: Flask routing, CORS, the request and response objects, and JSON encoding. A handler takes its decoded fields: the method, and the `.get` fields as `Option<string>`.
- The external programs are not modelled: `os.popen` and the tools it starts (`docker`, `iw`, `rauc`, `systemctl`, `ifconfig`, the helper scripts). In the read handlers their output is an input string; in the POST handlers an invocation is a `Run` effect.
- The commands the read handlers run are not in the effect log: `ifconfig wlan0 up` and the `iw` scan (lines 136-138), `docker ps` and the port scan (lines 216 and 220), the version helper (line 251) and `docker compose logs` (lines 307-308). `ifconfig wlan0 up` brings the interface up on every `/getScan`; that change to the device is not modelled.
- Filtering done inside shell pipelines is not modelled: the `sed` / `sort -u` of the SSID scan and the `--tail="20"` of the logs.
- `yaml.safe_load` is not modelled. The manifest is given as (service key, image field) pairs in manifest order. A service body that is not a mapping, or an image that is not a string, is the `NotText` image field and fails with `NotAString`. A document without a `services` mapping is not modelled.
- File and clock I/O appear only as effects: the configuration write, the bundle save and `time.sleep(5)`. The `/etc/os-release` reads at lines 47-49 and 71-73 (`/version` and the template context) are not modelled.
- Logging calls are not modelled; they have no behaviour.
- A malformed POST body is not modelled. This covers an empty form, a body that is not JSON, a missing `selectedServices` list, and a non-object `/wifi` JSON body. Python raises on each of these.
- JSON values that are not strings are modelled only in part. A non-string `select_action` behaves as an unknown action. In `/docker`, `/wifi` and `/ssh-setkey` only strings and missing values are modelled.
- A `selectedServices` element that is not a string is not modelled. The code calls `service.lower()` on it (line 177, in the logging call that runs for every action, an unknown one included), which raises.
- Text.Lower: models `lower()` for ASCII letters only; other characters are left unchanged, and Unicode case mapping is not modelled.
- A HEAD request is not modelled. Flask sends it to the GET view with `request.method` equal to `"HEAD"`. `/compose`, `/docker` and `/docker-update` test for GET, so HEAD falls through to their 404. `/getScan` and `/logs` have no method test, so HEAD runs the whole handler, `ifconfig wlan0 up` included.
- Concurrency is not modelled. The handlers run to completion one after another. The code has no lock: two `/update` POSTs at once both save to `/var/volatile/bundle.raucb` (line 278), and two `/wifi` POSTs at once both empty and write the configuration file (line 99), so the file contents can mix.
- Plans.WifiReply: the configuration is modelled as reaching the file in one piece when the handler returns, because the file opened at line 99 is never closed or flushed. A configuration longer than Python's write buffer (about 8 KiB, from a very long SSID or password) would be written in part before the restart steps; that is not modelled.
