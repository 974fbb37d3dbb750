/** The read-only handlers of the web server: each takes the standard output
    of the tool it runs (or the parsed compose manifest) and builds the list
    of rows it returns as JSON. A Python exception raised while parsing ends
    the request with an error; it is modelled as a `Failure`. */
module Inventory {
  import opened Results
  import opened Text

  /** One row of the compose listing. */
  datatype ComposeEntry = ComposeEntry(name: string, image: string, version: string)

  /** The `image` value of one service of the parsed manifest. */
  datatype ImageField =
    | Absent              // the service has no `image` key
    | Given(text: string) // the image string
    | NotText             // the service body, or its image, is null or not a string

  /** One row of the running-containers view. */
  datatype DockerRow = DockerRow(name: string, status: string, port: string)

  /** One row of the version-check view. */
  datatype UpdateRow = UpdateRow(name: string, update: string)

  datatype Ssid = Ssid(name: string)

  datatype LogLine = LogLine(data: string)

  /** The exceptions the parsing code can raise. */
  datatype Fault =
    | NotAString(service: string) // AttributeError: `.get` or `.split` on a non-string
    | Unpack(line: string)        // ValueError: a port-scan line is not two fields
    | NoSecondToken(line: string) // IndexError: a line has no second " "-token

  // ---------------------------------------------------------------------
  // Compose manifest listing
  // ---------------------------------------------------------------------

  /** The repository part of an image: the text before its first ':'. */
  function ImageName(image: string): (name: string)
    ensures ':' !in name
    ensures name <= image && (|name| < |image| ==> image[|name|] == ':')
  {
    SplitOnFirst(image, ':');
    SplitOn(image, ':')[0]
  }

  /** The tag of an image: the text after its last ':', or "latest". */
  function ImageVersion(image: string): (version: string)
    ensures ':' !in version
    ensures ':' in image ==>
      |version| < |image| && image[|image| - |version|..] == version
      && image[|image| - |version| - 1] == ':'
    ensures ':' !in image ==> version == "latest"
  {
    SplitOnLast(image, ':');
    if ':' in image then Last(SplitOn(image, ':')) else "latest"
  }

  /** An image with one ':' is its name and its version joined by ':'. */
  lemma ImageSplitRoundTrip(image: string)
    requires ':' in image
    requires forall i, j :: 0 <= i < j < |image| ==> !(image[i] == ':' && image[j] == ':')
    ensures image == ImageName(image) + ":" + ImageVersion(image)
  {
    var name, version := ImageName(image), ImageVersion(image);
    assert name == image[..|name|];
    assert |name| < |image|;
    assert |name| == |image| - |version| - 1;
    assert image == image[..|name|] + [image[|name|]] + image[|name| + 1..];
  }

  /** The image string of a service: `config.get("image", "None")`. */
  function ImageText(field: ImageField): string
    requires !field.NotText?
  {
    match field
    case Absent => "None"
    case Given(text) => text
  }

  /** The row the listing gives a service with an image string. */
  function EntryFor(service: string, field: ImageField): ComposeEntry
    requires !field.NotText?
  {
    var image := ImageText(field);
    ComposeEntry(service, ImageName(image), ImageVersion(image))
  }

  /** The GET side of `/compose`: one row per service of the manifest, in
      manifest order, named by its service key. */
  method ListCompose(services: seq<(string, ImageField)>) returns (r: Result<seq<ComposeEntry>, Fault>)
    ensures r.Success? <==> forall i :: 0 <= i < |services| ==> !services[i].1.NotText?
    ensures r.Success? ==>
      |r.value| == |services|
      && forall i :: 0 <= i < |services| ==> r.value[i] == EntryFor(services[i].0, services[i].1)
    ensures r.Failure? ==>
      exists i :: 0 <= i < |services| && services[i].1.NotText?
        && (forall j :: 0 <= j < i ==> !services[j].1.NotText?)
        && r.error == NotAString(services[i].0)
  {
    var containers: seq<ComposeEntry> := [];
    var i := 0;
    while i < |services|
      invariant 0 <= i <= |services|
      invariant |containers| == i
      invariant forall j :: 0 <= j < i ==> !services[j].1.NotText?
      invariant forall j :: 0 <= j < i ==> containers[j] == EntryFor(services[j].0, services[j].1)
    {
      var (service, config) := services[i];
      if config.NotText? {
        return Failure(NotAString(service));
      }
      var image := ImageText(config);
      var name := ImageName(image);
      var version := ImageVersion(image);
      containers := containers + [ComposeEntry(service, name, version)];
      i := i + 1;
    }
    return Success(containers);
  }

  /** A service without an `image` key is listed as image "None", "latest". */
  lemma AbsentImage(service: string)
    ensures EntryFor(service, Absent) == ComposeEntry(service, "None", "latest")
  {
    var image := ImageText(Absent);
    assert forall i :: 0 <= i < |image| ==> image[i] != ':';
    assert ImageName(image) == image;
  }

  // ---------------------------------------------------------------------
  // Port scan grouping
  // ---------------------------------------------------------------------

  /** A port-scan line unpacks into a name and a port. */
  predicate ScanLineOk(line: string)
  {
    |SplitWhitespace(line)| == 2
  }

  /** The ports the scan lines give `name`, in the order of the lines. */
  function PortsOf(lines: seq<string>, name: string): seq<string>
  {
    if lines == [] then []
    else
      var fields := SplitWhitespace(Last(lines));
      PortsOf(DropLast(lines), name) + (if |fields| == 2 && fields[0] == name then [fields[1]] else [])
  }

  /** Taking one more scan line adds at most that line's port. */
  lemma PortsOfStep(lines: seq<string>, i: nat, name: string)
    requires i < |lines|
    ensures var fields := SplitWhitespace(lines[i]);
      PortsOf(lines[..i + 1], name)
      == PortsOf(lines[..i], name) + (if |fields| == 2 && fields[0] == name then [fields[1]] else [])
  {
    assert DropLast(lines[..i + 1]) == lines[..i];
    assert Last(lines[..i + 1]) == lines[i];
  }

  /** A container that no well-formed scan line names has no ports, so its
      row shows an empty port string. */
  lemma {:induction false} AbsentContainerNoPorts(lines: seq<string>, name: string)
    requires forall i :: 0 <= i < |lines| && ScanLineOk(lines[i]) ==> SplitWhitespace(lines[i])[0] != name
    ensures PortsOf(lines, name) == []
    ensures Join(PortsOf(lines, name), ", ") == ""
  {
    if lines != [] {
      AbsentContainerNoPorts(DropLast(lines), name);
    }
  }

  /** The entry of a default-dict of lists: empty for a missing key. */
  function Ports(table: map<string, seq<string>>, name: string): seq<string>
  {
    if name in table then table[name] else []
  }

  /** The scan lines hold no bad line before `i`. */
  predicate ScanOkBefore(lines: seq<string>, i: int)
    requires 0 <= i <= |lines|
  {
    forall j :: 0 <= j < i ==> ScanLineOk(lines[j])
  }

  /** `i` is the first scan line that does not unpack. */
  predicate FirstBadScanLine(lines: seq<string>, i: int)
  {
    0 <= i < |lines| && !ScanLineOk(lines[i]) && ScanOkBefore(lines, i)
  }

  /** One more well-formed scan line keeps the grouping invariant. */
  lemma GroupStep(lines: seq<string>, i: nat, ports: map<string, seq<string>>, name: string, port: string,
                  next: map<string, seq<string>>)
    requires i < |lines| && SplitWhitespace(lines[i]) == [name, port]
    requires forall other :: Ports(ports, other) == PortsOf(lines[..i], other)
    requires next == ports[name := Ports(ports, name) + [port]]
    ensures forall other :: Ports(next, other) == PortsOf(lines[..i + 1], other)
  {
    forall other
      ensures Ports(next, other) == PortsOf(lines[..i + 1], other)
    {
      PortsOfStep(lines, i, other);
    }
  }

  /** Groups the output of the port-scan helper by container name. */
  method GroupPorts(scan: string) returns (r: Result<map<string, seq<string>>, Fault>)
    ensures r.Success? <==> ScanOkBefore(SplitLines(scan), |SplitLines(scan)|)
    ensures r.Success? ==> forall name :: Ports(r.value, name) == PortsOf(SplitLines(scan), name)
    ensures r.Failure? ==>
      exists i :: FirstBadScanLine(SplitLines(scan), i) && r.error == Unpack(SplitLines(scan)[i])
  {
    var lines := SplitLines(scan);
    SplitLinesNoBreak(scan);
    var ports: map<string, seq<string>> := map[];
    var i := 0;
    while i < |lines|
      invariant 0 <= i <= |lines|
      invariant ScanOkBefore(lines, i)
      invariant forall name :: Ports(ports, name) == PortsOf(lines[..i], name)
    {
      RStripLine(lines[i]);
      var line := RStrip(lines[i], '\n');
      var fields := SplitWhitespace(line);
      if |fields| != 2 {
        assert FirstBadScanLine(lines, i);
        return Failure(Unpack(line));
      }
      var name, port := fields[0], fields[1];
      assert ScanOkBefore(lines, i + 1);
      var next := ports[name := Ports(ports, name) + [port]];
      GroupStep(lines, i, ports, name, port, next);
      ports := next;
      i := i + 1;
    }
    assert lines[..i] == lines;
    return Success(ports);
  }

  // ---------------------------------------------------------------------
  // `docker ps` rows and version-check rows
  // ---------------------------------------------------------------------

  /** A line has a second " "-separated token. */
  predicate HasTwoTokens(line: string)
  {
    ' ' in line
  }

  predicate TokensOkBefore(lines: seq<string>, i: int)
    requires 0 <= i <= |lines|
  {
    forall j :: 0 <= j < i ==> HasTwoTokens(lines[j])
  }

  predicate FirstLineWithoutStatus(lines: seq<string>, i: int)
  {
    0 <= i < |lines| && !HasTwoTokens(lines[i]) && TokensOkBefore(lines, i)
  }

  /** The container name of a `docker ps` line: its first " "-token. */
  function ContainerName(line: string): string
  {
    SplitOn(line, ' ')[0]
  }

  /** The row one `docker ps` line gives, carrying the given ports. */
  function Row(line: string, ports: seq<string>): DockerRow
    requires HasTwoTokens(line)
  {
    var tokens := SplitOn(line, ' ');
    DockerRow(tokens[0], tokens[1], Join(ports, ", "))
  }

  /** The row-building loop of the GET side of `/docker`: every `docker ps`
      line gives one row, in order. */
  method DockerRows(ps: string, ports: map<string, seq<string>>) returns (r: Result<seq<DockerRow>, Fault>)
    ensures r.Success? <==> TokensOkBefore(SplitLines(ps), |SplitLines(ps)|)
    ensures r.Success? ==>
      |r.value| == |SplitLines(ps)|
      && forall i :: 0 <= i < |r.value| ==> r.value[i] == Row(SplitLines(ps)[i], Ports(ports, ContainerName(SplitLines(ps)[i])))
    ensures r.Failure? ==>
      exists i :: FirstLineWithoutStatus(SplitLines(ps), i) && r.error == NoSecondToken(SplitLines(ps)[i])
  {
    var lines := SplitLines(ps);
    SplitLinesNoBreak(ps);
    var containers: seq<DockerRow> := [];
    var i := 0;
    while i < |lines|
      invariant 0 <= i <= |lines|
      invariant |containers| == i
      invariant TokensOkBefore(lines, i)
      invariant forall j :: 0 <= j < i ==> containers[j] == Row(lines[j], Ports(ports, ContainerName(lines[j])))
    {
      RStripLine(lines[i]);
      var line := RStrip(lines[i], '\n');
      var tokens := SplitOn(line, ' ');
      var containerName := tokens[0];
      if |tokens| < 2 {
        assert FirstLineWithoutStatus(lines, i);
        return Failure(NoSecondToken(line));
      }
      containers := containers + [DockerRow(containerName, tokens[1], Join(Ports(ports, containerName), ", "))];
      i := i + 1;
    }
    return Success(containers);
  }

  /** The GET side of `/docker`: the port scan is grouped first, then every
      `docker ps` line gives one row, in order, carrying the ports the scan
      lists for that container. */
  method DockerView(ps: string, scan: string) returns (r: Result<seq<DockerRow>, Fault>)
    ensures r.Success? <==>
      ScanOkBefore(SplitLines(scan), |SplitLines(scan)|) && TokensOkBefore(SplitLines(ps), |SplitLines(ps)|)
    ensures r.Success? ==>
      |r.value| == |SplitLines(ps)|
      && forall i :: 0 <= i < |r.value| ==> r.value[i] == Row(SplitLines(ps)[i], PortsOf(SplitLines(scan), ContainerName(SplitLines(ps)[i])))
    ensures r.Failure? && !ScanOkBefore(SplitLines(scan), |SplitLines(scan)|) ==>
      exists i :: FirstBadScanLine(SplitLines(scan), i) && r.error == Unpack(SplitLines(scan)[i])
    ensures r.Failure? && ScanOkBefore(SplitLines(scan), |SplitLines(scan)|) ==>
      exists i :: FirstLineWithoutStatus(SplitLines(ps), i) && r.error == NoSecondToken(SplitLines(ps)[i])
  {
    var grouped := GroupPorts(scan);
    if grouped.Failure? {
      return Failure(grouped.error);
    }
    r := DockerRows(ps, grouped.value);
    if r.Success? {
      forall i | 0 <= i < |r.value|
        ensures r.value[i] == Row(SplitLines(ps)[i], PortsOf(SplitLines(scan), ContainerName(SplitLines(ps)[i])))
      {
        var tokens := SplitOn(SplitLines(ps)[i], ' ');
        assert Ports(grouped.value, tokens[0]) == PortsOf(SplitLines(scan), tokens[0]);
      }
    }
  }

  /** The status column is the one word after the name: "web Up 3 days"
      gives status "Up". */
  lemma StatusIsOneWord(name: string, word: string, rest: string, ports: seq<string>)
    requires ' ' !in name && ' ' !in word
    ensures var row := Row(name + " " + word + " " + rest, ports);
      row.name == name && row.status == word
  {
    var line := name + " " + word + " " + rest;
    assert line == name + [' '] + (word + [' '] + rest);
    SplitOnPrefix(name, ' ', word + [' '] + rest);
    SplitOnPrefix(word, ' ', rest);
  }

  /** The GET side of `/docker-update`: one row per output line of the
      version-check helper, in order. */
  method VersionView(output: string) returns (r: Result<seq<UpdateRow>, Fault>)
    ensures r.Success? <==> TokensOkBefore(SplitLines(output), |SplitLines(output)|)
    ensures r.Success? ==>
      |r.value| == |SplitLines(output)|
      && forall i :: 0 <= i < |r.value| ==>
        var tokens := SplitOn(SplitLines(output)[i], ' ');
        r.value[i] == UpdateRow(tokens[0], tokens[1])
    ensures r.Failure? ==>
      exists i :: FirstLineWithoutStatus(SplitLines(output), i) && r.error == NoSecondToken(SplitLines(output)[i])
  {
    var lines := SplitLines(output);
    SplitLinesNoBreak(output);
    var containers: seq<UpdateRow> := [];
    var i := 0;
    while i < |lines|
      invariant 0 <= i <= |lines|
      invariant |containers| == i
      invariant TokensOkBefore(lines, i)
      invariant forall j :: 0 <= j < i ==>
        var tokens := SplitOn(lines[j], ' ');
        containers[j] == UpdateRow(tokens[0], tokens[1])
    {
      RStripLine(lines[i]);
      var line := RStrip(lines[i], '\n');
      var tokens := SplitOn(line, ' ');
      if |tokens| < 2 {
        assert FirstLineWithoutStatus(lines, i);
        return Failure(NoSecondToken(line));
      }
      containers := containers + [UpdateRow(tokens[0], tokens[1])];
      i := i + 1;
    }
    return Success(containers);
  }

  // ---------------------------------------------------------------------
  // Line-preserving parsers
  // ---------------------------------------------------------------------

  /** `/getScan`: one entry per output line, in order, each cut at its
      first ';'. */
  method ScanView(output: string) returns (ssids: seq<Ssid>)
    ensures |ssids| == |SplitLines(output)|
    ensures forall i :: 0 <= i < |ssids| ==>
      var line, name := SplitLines(output)[i], ssids[i].name;
      ';' !in name && name <= line && (|name| < |line| ==> line[|name|] == ';')
  {
    var lines := SplitLines(output);
    SplitLinesNoBreak(output);
    ssids := [];
    var i := 0;
    while i < |lines|
      invariant 0 <= i <= |lines|
      invariant |ssids| == i
      invariant forall j :: 0 <= j < i ==>
        var name := ssids[j].name;
        ';' !in name && name <= lines[j] && (|name| < |lines[j]| ==> lines[j][|name|] == ';')
    {
      RStripLine(lines[i]);
      var line := RStrip(lines[i], '\n');
      var parsedLine := SplitOn(line, ';');
      ssids := ssids + [Ssid(parsedLine[0])];
      i := i + 1;
    }
  }

  /** `/logs`: one entry per output line, in order, empty lines included
      and no bound on their number. */
  method LogView(output: string) returns (logs: seq<LogLine>)
    ensures |logs| == |SplitLines(output)|
    ensures forall i :: 0 <= i < |logs| ==> logs[i].data == SplitLines(output)[i]
  {
    var lines := SplitLines(output);
    SplitLinesNoBreak(output);
    logs := [];
    var i := 0;
    while i < |lines|
      invariant 0 <= i <= |lines|
      invariant |logs| == i
      invariant forall j :: 0 <= j < i ==> logs[j].data == lines[j]
    {
      RStripLine(lines[i]);
      var line := RStrip(lines[i], '\n');
      logs := logs + [LogLine(line)];
      i := i + 1;
    }
  }
}
