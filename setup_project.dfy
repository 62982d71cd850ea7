/**
 * setup_project.py: the checks the setup script runs before the detectors
 * are used. What each check finds out about the machine (the interpreter's
 * version, which imports succeed, whether pip, the model download and the
 * webcam work, which serial ports exist and whether one opens) is an input
 * here; the model keeps the decisions the script takes on those answers.
 */
module ProjectSetup {
  import opened Wrappers
  import opened Text

  /** `a` can be obtained from `b` by deleting elements: its elements occur in `b` in the same order. */
  ghost predicate IsSubsequence<T>(a: seq<T>, b: seq<T>)
    decreases |b|
  {
    a == [] ||
    (b != [] &&
      if a[|a| - 1] == b[|b| - 1] then IsSubsequence(a[..|a| - 1], b[..|b| - 1])
      else IsSubsequence(a, b[..|b| - 1]))
  }

  /** Appending to the longer sequence keeps a subsequence a subsequence. */
  lemma {:induction false} SubsequenceExtend<T>(a: seq<T>, b: seq<T>, x: T)
    requires IsSubsequence(a, b)
    ensures IsSubsequence(a, b + [x])
    decreases |b|, 1
  {
    assert (b + [x])[..|b|] == b;
    if a != [] && a[|a| - 1] == x {
      SubsequenceDropLast(a, b);
    }
  }

  /** Dropping the last element of a subsequence leaves a subsequence. */
  lemma {:induction false} SubsequenceDropLast<T>(a: seq<T>, b: seq<T>)
    requires a != [] && IsSubsequence(a, b)
    ensures IsSubsequence(a[..|a| - 1], b)
    decreases |b|, 0
  {
    var b' := b[..|b| - 1];
    assert b == b' + [b[|b| - 1]];
    if a[|a| - 1] == b[|b| - 1] {
      SubsequenceExtend(a[..|a| - 1], b', b[|b| - 1]);
    } else {
      SubsequenceDropLast(a, b');
      SubsequenceExtend(a[..|a| - 1], b', b[|b| - 1]);
    }
  }

  /** Lines 36-41: the interpreter is accepted when its version is 3.7 or later. */
  function PythonVersionOk(major: int, minor: int): (ok: bool)
    ensures ok <==> major > 3 || (major == 3 && minor >= 7)
  {
    !(major < 3 || (major == 3 && minor < 7))
  }

  /** Any version at or above an accepted one is accepted too. */
  lemma VersionCheckMonotone(major: int, minor: int, major': int, minor': int)
    requires PythonVersionOk(major, minor)
    requires major' > major || (major' == major && minor' >= minor)
    ensures PythonVersionOk(major', minor')
  {
  }

  /** Lines 47-54: the packages the detectors import, in the order they are checked. */
  const RequiredPackages: seq<string> := ["opencv-python", "dlib", "numpy", "scipy", "pyserial", "cmake"]

  /** The packages of `pkgs` whose import fails, in the order they are checked. */
  function Missing(pkgs: seq<string>, installed: set<string>): (m: seq<string>)
    ensures |m| <= |pkgs|
    ensures forall p :: p in m <==> p in pkgs && p !in installed
    decreases |pkgs|
  {
    if pkgs == [] then []
    else
      var earlier := pkgs[..|pkgs| - 1];
      var p := pkgs[|pkgs| - 1];
      assert pkgs == earlier + [p];
      var rest := Missing(earlier, installed);
      if p in installed then rest else rest + [p]
  }

  /** The missing packages keep the order of the required list. */
  lemma {:induction false} MissingInOrder(pkgs: seq<string>, installed: set<string>)
    ensures IsSubsequence(Missing(pkgs, installed), pkgs)
    decreases |pkgs|
  {
    if pkgs != [] {
      var earlier := pkgs[..|pkgs| - 1];
      var p := pkgs[|pkgs| - 1];
      assert pkgs == earlier + [p];
      MissingInOrder(earlier, installed);
      var rest := Missing(earlier, installed);
      if p in installed {
        SubsequenceExtend(rest, earlier, p);
      } else {
        assert (rest + [p])[..|rest|] == rest;
      }
    }
  }

  /** The import loop of `check_and_install_packages`: try each package of `pkgs` in turn. */
  method FindMissing(pkgs: seq<string>, installed: set<string>) returns (missing: seq<string>)
    ensures missing == Missing(pkgs, installed)
  {
    missing := [];
    for i := 0 to |pkgs|
      invariant missing == Missing(pkgs[..i], installed)
    {
      var package := pkgs[i];
      assert pkgs[..i + 1][..i] == pkgs[..i];
      if package !in installed {
        missing := missing + [package];
      }
    }
    assert pkgs[..|pkgs|] == pkgs;
  }

  /**
   * `check_and_install_packages`: `installed` is the set of packages whose
   * import succeeds, `pipSucceeds` whether the one pip call for the missing
   * ones succeeds. The check passes when nothing is missing or the install
   * works; pip is run only when something is missing.
   */
  method CheckAndInstallPackages(installed: set<string>, pipSucceeds: bool) returns (ok: bool, missing: seq<string>, pipRun: bool)
    ensures missing == Missing(RequiredPackages, installed)
    ensures pipRun <==> missing != []
    ensures ok <==> missing == [] || pipSucceeds
  {
    missing := FindMissing(RequiredPackages, installed);
    pipRun := missing != [];
    ok := !pipRun || pipSucceeds;
  }

  /** What the port enumeration reports for one serial port. */
  datatype PortInfo = PortInfo(device: string, description: string)

  /** Line 186: the description, lower-cased, mentions "arduino" or "uno". */
  predicate IsArduino(p: PortInfo)
  {
    var d := Lower(p.description);
    Contains(d, "arduino") || Contains(d, "uno")
  }

  /** Port `i` is the first Arduino of the scan. */
  predicate FirstArduino(ports: seq<PortInfo>, i: int)
  {
    0 <= i < |ports| && IsArduino(ports[i]) && forall j :: 0 <= j < i ==> !IsArduino(ports[j])
  }

  /** The devices of a scan, in scan order. */
  function Devices(ports: seq<PortInfo>): (ds: seq<string>)
    ensures |ds| == |ports| && forall i :: 0 <= i < |ports| ==> ds[i] == ports[i].device
  {
    seq(|ports|, i requires 0 <= i < |ports| => ports[i].device)
  }

  /**
   * Lines 183-190: the devices of the Arduino ports, in scan order. It is
   * empty exactly when no port matches, a device is listed only if a matching
   * port has it, and its first entry is the device of the first match.
   */
  function Matching(ports: seq<PortInfo>): (m: seq<string>)
    ensures |m| <= |ports|
    ensures m == [] <==> forall i :: 0 <= i < |ports| ==> !IsArduino(ports[i])
    ensures forall d :: d in m <==> exists i :: 0 <= i < |ports| && IsArduino(ports[i]) && ports[i].device == d
    ensures m != [] ==> exists i :: FirstArduino(ports, i) && ports[i].device == m[0]
    decreases |ports|
  {
    if ports == [] then []
    else
      var earlier := ports[..|ports| - 1];
      var p := ports[|ports| - 1];
      assert forall i :: 0 <= i < |earlier| ==> earlier[i] == ports[i];
      var rest := Matching(earlier);
      if !IsArduino(p) then rest
      else
        assert rest == [] ==> FirstArduino(ports, |ports| - 1);
        assert forall d :: d in rest + [p.device] <==> d in rest || d == p.device;
        rest + [p.device]
  }

  /** The Arduino devices are found in the order the ports were scanned. */
  lemma {:induction false} MatchingInOrder(ports: seq<PortInfo>)
    ensures IsSubsequence(Matching(ports), Devices(ports))
    decreases |ports|
  {
    if ports != [] {
      var earlier := ports[..|ports| - 1];
      var p := ports[|ports| - 1];
      assert Devices(ports) == Devices(earlier) + [p.device];
      MatchingInOrder(earlier);
      var rest := Matching(earlier);
      if IsArduino(p) {
        assert (rest + [p.device])[..|rest|] == rest;
      } else {
        SubsequenceExtend(rest, Devices(earlier), p.device);
      }
    }
  }

  /**
   * `find_arduino_ports`: `scan` is the list of ports, or `None` when the
   * enumeration raises. The result is the first Arduino's device, if any.
   */
  method FindArduinoPorts(scan: Option<seq<PortInfo>>) returns (port: Option<string>)
    ensures scan.None? ==> port == None
    ensures scan.Some? ==> (port == None <==> forall i :: 0 <= i < |scan.value| ==> !IsArduino(scan.value[i]))
    ensures port.Some? ==> exists i :: FirstArduino(scan.value, i) && scan.value[i].device == port.value
  {
    if scan.None? {
      return None;
    }
    var ports := scan.value;
    var arduinoPorts: seq<string> := [];
    for i := 0 to |ports|
      invariant arduinoPorts == Matching(ports[..i])
    {
      assert ports[..i + 1][..i] == ports[..i];
      if IsArduino(ports[i]) {
        arduinoPorts := arduinoPorts + [ports[i].device];
      }
    }
    assert ports[..|ports|] == ports;
    if arduinoPorts == [] {
      return None;
    }
    port := Some(arduinoPorts[0]);
  }

  /**
   * `test_serial_connection`: an absent or empty port name fails at once;
   * otherwise `opens` says whether opening the port succeeds, after which one
   * '1' is written, and `replyDecodes` whether the Arduino's reply, if any,
   * decodes as text. A reply that does not decode fails the test after the
   * '1' went out.
   */
  method TestSerialConnection(port: Option<string>, opens: bool, replyDecodes: bool) returns (ok: bool, written: seq<char>)
    ensures port.None? || port.value == "" ==> !ok && written == []
    ensures ok <==> port.Some? && port.value != "" && opens && replyDecodes
    ensures written == if port.Some? && port.value != "" && opens then ['1'] else []
    ensures ok ==> written == ['1']
  {
    if port.None? || port.value == "" {
      return false, [];
    }
    if !opens {
      return false, [];
    }
    written := ['1'];
    ok := replyDecodes;
  }

  /** What the checks of the setup script find out about the machine. */
  datatype Machine = Machine(
    major: int, minor: int,
    installed: set<string>, pipSucceeds: bool,
    /** `download_face_landmarks` succeeds: the model file exists or is downloaded and extracted. */
    modelReady: bool,
    /** `test_webcam` succeeds: camera 0 or 1 opens and yields a frame. */
    webcamWorks: bool,
    scan: Option<seq<PortInfo>>,
    serialOpens: bool,
    /** The Arduino's reply to the test byte, if there is one, decodes as text. */
    replyDecodes: bool)

  /** The steps of `main`. */
  datatype Step = VersionCheck | PackageCheck | ModelDownload | WebcamTest | PortScan | ConnectionTest | ScriptCreation

  /** What `main` did and concluded. */
  datatype SetupReport = SetupReport(success: bool, ran: seq<Step>, arduinoPort: Option<string>, written: seq<char>)

  /** The package check passes on machine `m`. */
  predicate PackagesReady(m: Machine)
  {
    Missing(RequiredPackages, m.installed) == [] || m.pipSucceeds
  }

  /**
   * Lines 311-327 of `main`: the version, package, model and webcam checks
   * run in turn, each only while all before it passed.
   */
  method RunChecks(m: Machine) returns (success: bool, ran: seq<Step>)
    ensures success <==> PythonVersionOk(m.major, m.minor) && PackagesReady(m) && m.modelReady && m.webcamWorks
    ensures ran != [] && ran[0] == VersionCheck
    ensures PackageCheck in ran <==> PythonVersionOk(m.major, m.minor)
    ensures ModelDownload in ran <==> PythonVersionOk(m.major, m.minor) && PackagesReady(m)
    ensures WebcamTest in ran <==> PythonVersionOk(m.major, m.minor) && PackagesReady(m) && m.modelReady
    ensures forall s :: s in ran ==> s in {VersionCheck, PackageCheck, ModelDownload, WebcamTest}
  {
    ran := [VersionCheck];
    success := true;
    if !PythonVersionOk(m.major, m.minor) {
      success := false;
    }
    if success {
      ran := ran + [PackageCheck];
      var ok, missing, pipRun := CheckAndInstallPackages(m.installed, m.pipSucceeds);
      if !ok {
        success := false;
      }
    }
    if success {
      ran := ran + [ModelDownload];
      if !m.modelReady {
        success := false;
      }
    }
    if success {
      ran := ran + [WebcamTest];
      if !m.webcamWorks {
        success := false;
      }
    }
  }

  /**
   * `main`: the checks, then the port scan, the connection test when a port
   * is found, and the creation of the test script, which always run.
   */
  method RunSetup(m: Machine) returns (r: SetupReport)
    ensures r.success <==> PythonVersionOk(m.major, m.minor) && PackagesReady(m) && m.modelReady && m.webcamWorks
    ensures PackageCheck in r.ran <==> PythonVersionOk(m.major, m.minor)
    ensures ModelDownload in r.ran <==> PythonVersionOk(m.major, m.minor) && PackagesReady(m)
    ensures WebcamTest in r.ran <==> PythonVersionOk(m.major, m.minor) && PackagesReady(m) && m.modelReady
    ensures r.ran != [] && r.ran[0] == VersionCheck && PortScan in r.ran && r.ran[|r.ran| - 1] == ScriptCreation
    ensures m.scan.None? ==> r.arduinoPort == None
    ensures m.scan.Some? ==> (r.arduinoPort == None <==> forall i :: 0 <= i < |m.scan.value| ==> !IsArduino(m.scan.value[i]))
    ensures r.arduinoPort.Some? ==> exists i :: FirstArduino(m.scan.value, i) && m.scan.value[i].device == r.arduinoPort.value
    ensures ConnectionTest in r.ran <==> r.arduinoPort.Some? && r.arduinoPort.value != ""
    ensures r.written == if ConnectionTest in r.ran && m.serialOpens then ['1'] else []
  {
    var success, ran := RunChecks(m);
    ran := ran + [PortScan];
    var arduinoPort := FindArduinoPorts(m.scan);
    var written: seq<char> := [];
    if arduinoPort.Some? && arduinoPort.value != "" {
      ran := ran + [ConnectionTest];
      var connected;
      connected, written := TestSerialConnection(arduinoPort, m.serialOpens, m.replyDecodes);
    }
    ran := ran + [ScriptCreation];
    r := SetupReport(success, ran, arduinoPort, written);
  }
}
