/** `JuliaMPS._play_audio`: choosing how to play one file on the host platform,
    and what is reported when the attempt raises. Starting the process, `which`
    and `os.startfile` are not modelled: the host's answers are inputs and the
    result is the command chosen. */
module Playback {
  import opened Files
  import opened Optional

  /** The macOS player, tried at this fixed path. */
  const AfplayPath: string := "/usr/bin/afplay"

  /** The Linux players, in the order they are looked up with `which`. */
  const LinuxPlayers: seq<string> := ["paplay", "aplay", "ffplay", "play"]

  /** What the script learns about the machine: the name `platform.system()`
      returns, whether `/usr/bin/afplay` exists, whether the `which` program
      itself can be started, and which programs it finds. */
  datatype Host = Host(system: string, afplayExists: bool, hasWhich: bool, onPath: set<string>)

  /** A process started with the file's path as its last argument, or the
      Windows "open with the default application" call. */
  datatype Command = Run(argv: seq<string>) | StartFile(path: string)

  /** The result of one attempt: a command ran, there was nothing to run, or the
      command raised and the exception was reported instead of propagated. */
  datatype Outcome = Played(cmd: Command) | NothingPlayed | Failed(cmd: Command)

  const NoPlayerWarning: string :=
    "[WARN] No suitable audio player found; please install 'afplay' or configure another CLI player."

  const AfplayMissingWarning: string := "[WARN] afplay not found, using 'open' fallback"

  /** The report for any other exception, with its message. */
  function PlayFailedWarning(detail: string): string
  {
    "[WARN] Could not auto\U{2011}play audio: " + detail
  }

  /** The index of the first player in `players` that is on the path, or
      `|players|` when none is. */
  function FirstOnPath(players: seq<string>, onPath: set<string>): (k: nat)
    ensures k <= |players|
    ensures forall j :: 0 <= j < k ==> players[j] !in onPath
    ensures k < |players| ==> players[k] in onPath
  {
    if players == [] then 0
    else if players[0] in onPath then 0
    else 1 + FirstOnPath(players[1..], onPath)
  }

  /** The command `_play_audio` runs for `path`, if any. On macOS: `afplay` when
      it exists, `open` otherwise. On Linux: the first of the four players that
      is on the path, and nothing when none is or when `which` cannot be started
      (the first probe then raises). On Windows: `os.startfile`. On
      any other platform: nothing. */
  function Choose(host: Host, path: string): (r: Option<Command>)
    ensures host.system == "Darwin" ==>
      r == Some(Run([if host.afplayExists then AfplayPath else "open", path]))
    ensures host.system == "Linux" ==>
      (r == None <==> !host.hasWhich || forall p :: p in LinuxPlayers ==> p !in host.onPath)
    ensures host.system == "Linux" && r.Some? ==>
      exists k :: 0 <= k < |LinuxPlayers| && r == Some(Run([LinuxPlayers[k], path])) &&
        LinuxPlayers[k] in host.onPath && forall j :: 0 <= j < k ==> LinuxPlayers[j] !in host.onPath
    ensures host.system == "Windows" ==> r == Some(StartFile(path))
    ensures host.system != "Darwin" && host.system != "Linux" && host.system != "Windows" ==> r == None
  {
    if host.system == "Darwin" then
      Some(Run([if host.afplayExists then AfplayPath else "open", path]))
    else if host.system == "Linux" then
      if !host.hasWhich then None else
      var k := FirstOnPath(LinuxPlayers, host.onPath);
      if k < |LinuxPlayers| then Some(Run([LinuxPlayers[k], path])) else None
    else if host.system == "Windows" then
      Some(StartFile(path))
    else None
  }

  /** What is printed before the command is started. */
  function Notice(host: Host, path: string): seq<string>
  {
    if host.system == "Darwin" then
      if host.afplayExists then ["[DEBUG] Playing via afplay: " + path] else [AfplayMissingWarning]
    else []
  }

  /** The probe for a Linux player raises `FileNotFoundError` before any player
      is chosen. */
  predicate ProbeFails(host: Host)
  {
    host.system == "Linux" && !host.hasWhich
  }

  /** What is printed when starting the command raises. */
  function LaunchWarning(launch: Launch): seq<string>
  {
    match launch
    case Returns => []
    case RaisesNotFound => [NoPlayerWarning]
    case Raises(detail) => [PlayFailedWarning(detail)]
  }

  /** The observable result of playing `path`: with no command chosen, nothing
      is played and nothing is printed; otherwise the chosen command either ran or
      failed, depending on what starting it did, and the output is the notice
      before it followed by the warning for an exception. */
  predicate PlayedAsChosen(host: Host, path: string, launch: Launch, outcome: Outcome, log: seq<string>)
  {
    match Choose(host, path)
    case None => outcome == NothingPlayed && log == (if ProbeFails(host) then [NoPlayerWarning] else [])
    case Some(c) =>
      outcome == (if launch == Returns then Played(c) else Failed(c)) &&
      log == Notice(host, path) + LaunchWarning(launch)
  }

  /** Plays one file. At most one command is started, and it is the one `Choose`
      names; an exception it raises becomes a warning and a `Failed` outcome,
      never a failure of the caller. */
  method PlayAudio(host: Host, path: string, launch: Launch) returns (outcome: Outcome, log: seq<string>)
    ensures PlayedAsChosen(host, path, launch, outcome, log)
  {
    var cmd: Option<Command> := None;
    log := [];
    if host.system == "Darwin" {
      if host.afplayExists {
        log := log + ["[DEBUG] Playing via afplay: " + path];
        cmd := Some(Run([AfplayPath, path]));
      } else {
        log := log + [AfplayMissingWarning];
        cmd := Some(Run(["open", path]));
      }
    } else if host.system == "Linux" && !host.hasWhich {
      log := log + [NoPlayerWarning];
    } else if host.system == "Linux" {
      var i := 0;
      while i < |LinuxPlayers|
        invariant 0 <= i <= |LinuxPlayers|
        invariant forall j :: 0 <= j < i ==> LinuxPlayers[j] !in host.onPath
        invariant cmd == None
      {
        if LinuxPlayers[i] in host.onPath {
          cmd := Some(Run([LinuxPlayers[i], path]));
          break;
        }
        i := i + 1;
      }
    } else if host.system == "Windows" {
      cmd := Some(StartFile(path));
    }
    match cmd
    case None =>
      outcome := NothingPlayed;
    case Some(c) =>
      match launch
      case Returns =>
        outcome := Played(c);
      case RaisesNotFound =>
        outcome := Failed(c);
        log := log + [NoPlayerWarning];
      case Raises(detail) =>
        outcome := Failed(c);
        log := log + [PlayFailedWarning(detail)];
  }
}
