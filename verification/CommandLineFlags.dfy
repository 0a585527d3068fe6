/**
 The table of long options and the argv validator built on it
 (app/cli/CommandLineFlags.cpp).
 */
module CommandLineFlags {
  import opened Wrappers
  import opened EditDistance

  /** Whether a flag consumes the argument after it. */
  datatype FlagArity = NoValue | TakesValue

  datatype FlagRow = FlagRow(name: string, arity: FlagArity)

  predicate IsLongOption(argument: string) {
    |argument| >= 2 && argument[0] == '-' && argument[1] == '-'
  }

  /** A row of the table: a proper long option, never the bare "--". */
  type KnownFlag = f: FlagRow | IsLongOption(f.name) && |f.name| > 2
    witness FlagRow("--x", NoValue)

  function Flag(name: string, arity: FlagArity): KnownFlag
    requires IsLongOption(name) && |name| > 2
  {
    FlagRow(name, arity)
  }

  // Owned by AutoRecordOptions.cpp.
  const AUTO_RECORD_FLAGS: seq<KnownFlag> := [
    Flag("--auto-record", NoValue),
    Flag("--auto-record-bare", NoValue),
    Flag("--capture-backend", TakesValue),
    Flag("--target", TakesValue),
    Flag("--target-window-title", TakesValue),
    Flag("--audio-rows", TakesValue),
    Flag("--merge-above", TakesValue),
    Flag("--container", TakesValue),
    Flag("--video-codec", TakesValue),
    Flag("--audio-codec", TakesValue),
    Flag("--chroma", TakesValue),
    Flag("--bit-depth", TakesValue),
    Flag("--hdr", TakesValue),
    Flag("--duration", TakesValue),
    Flag("--frame-rate", TakesValue),
    Flag("--cq", TakesValue),
    Flag("--nvenc-preset", TakesValue),
    Flag("--repeat-cycles", TakesValue),
    Flag("--pause-at", TakesValue),
    Flag("--pause-for", TakesValue),
    Flag("--capture-frame-at", TakesValue),
    Flag("--benchmark-scenario", TakesValue),
    Flag("--benchmark-output", TakesValue),
    Flag("--benchmark-notes", TakesValue),
    Flag("--benchmark-warmup", TakesValue),
    Flag("--capture-frame-in-ready", NoValue),
    Flag("--screenshot-path", TakesValue),
    Flag("--enable-preview", NoValue)
  ]

  // Owned by QuickAutoEditHarness.cpp.
  const AUTO_EDIT_FLAGS: seq<KnownFlag> := [
    Flag("--auto-edit", NoValue),
    Flag("--auto-edit-media", TakesValue),
    Flag("--auto-edit-report", TakesValue),
    Flag("--auto-edit-duration", TakesValue),
    Flag("--auto-edit-no-export", NoValue),
    Flag("--auto-edit-trim", TakesValue),
    Flag("--auto-edit-screenshot", TakesValue),
    Flag("--auto-edit-size", TakesValue)
  ]

  // Owned by the shell's main.cpp, as are the visual ones below.
  const SHELL_FLAGS: seq<KnownFlag> := [
    Flag("--smoke-test", NoValue),
    Flag("--window-trace", NoValue),
    Flag("--hwnd-audit", NoValue),
    Flag("--pseudo-localize", NoValue),
    Flag("--desktop-pattern", NoValue),
    Flag("--navigation-lifecycle-test", NoValue),
    Flag("--preview-smoke-test", NoValue),
    Flag("--preview-lifecycle-test", NoValue),
    Flag("--preview-visual-test", NoValue),
    Flag("--preview-benchmark", TakesValue),
    Flag("--benchmark-seconds", TakesValue),
    Flag("--window-maximize-cycle", NoValue),
    Flag("--cursor-audit", NoValue),
    Flag("--still-frame-validation", TakesValue),
    Flag("--target-refresh-validation", TakesValue)
  ]

  const VISUAL_FLAGS: seq<KnownFlag> := [
    Flag("--visual-test", TakesValue),
    Flag("--visual-test-size", TakesValue),
    Flag("--visual-delay-ms", TakesValue),
    Flag("--visual-page", TakesValue),
    Flag("--visual-popup", TakesValue),
    Flag("--visual-dialog", TakesValue),
    Flag("--visual-appearance", TakesValue),
    Flag("--visual-accent", TakesValue),
    Flag("--visual-shell-appearance", TakesValue),
    Flag("--settings-visual-bottom", NoValue),
    Flag("--visual-expert", NoValue),
    Flag("--visual-scroll", TakesValue),
    Flag("--visual-live-preview", NoValue),
    Flag("--visual-full-page", NoValue),
    Flag("--visual-expand-all", NoValue),
    Flag("--record-visual-state", TakesValue),
    Flag("--record-visual-menu", NoValue),
    Flag("--overlay-visual-state", TakesValue)
  ]

  // Owned by the update, elevation and control services.
  const SERVICE_FLAGS: seq<KnownFlag> := [
    Flag("--live-verify-control", TakesValue),
    Flag("--live-verify-static-webcam", NoValue),
    Flag("--update-base-url", TakesValue),
    Flag("--verify-update-reinstall", NoValue),
    Flag("--relaunch-page", TakesValue),
    Flag("--reenable-present-diag", NoValue)
  ]

  /** Every long option the executable understands, in table order. */
  function KnownCommandLineFlags(): seq<KnownFlag> {
    AUTO_RECORD_FLAGS + AUTO_EDIT_FLAGS + SHELL_FLAGS + VISUAL_FLAGS + SERVICE_FLAGS
  }

  // ----- Lookup -----

  /** The first flag called `name`. */
  function Find(flags: seq<KnownFlag>, name: string): Option<KnownFlag> {
    if flags == [] then None
    else if flags[0].name == name then Some(flags[0])
    else Find(flags[1..], name)
  }

  lemma {:induction false} FindIsFirst(flags: seq<KnownFlag>, name: string)
    ensures Find(flags, name).None? <==> forall k :: 0 <= k < |flags| ==> flags[k].name != name
    ensures Find(flags, name).Some? ==>
              exists k :: 0 <= k < |flags| && Find(flags, name).value == flags[k] && flags[k].name == name
                          && forall j :: 0 <= j < k ==> flags[j].name != name
  {
    if flags != [] && flags[0].name != name {
      FindIsFirst(flags[1..], name);
      if Find(flags[1..], name).Some? {
        var k :| 0 <= k < |flags[1..]| && Find(flags[1..], name).value == flags[1..][k] && flags[1..][k].name == name
                 && forall j :: 0 <= j < k ==> flags[1..][j].name != name;
        forall j | 0 <= j < k + 1 ensures flags[j].name != name {
          if j > 0 {
            assert flags[j] == flags[1..][j - 1];
          }
        }
        assert flags[k + 1] == flags[1..][k];
      } else {
        forall j | 0 <= j < |flags| ensures flags[j].name != name {
          if j > 0 {
            assert flags[j] == flags[1..][j - 1];
          }
        }
      }
    }
  }

  method FindFlag(flags: seq<KnownFlag>, name: string) returns (flag: Option<KnownFlag>)
    ensures flag == Find(flags, name)
  {
    for k := 0 to |flags|
      invariant Find(flags, name) == Find(flags[k..], name)
    {
      if name == flags[k].name {
        return Some(flags[k]);
      }
    }
    return None;
  }

  // ----- The nearest flag -----

  /** How far a suggestion may be from what was typed. */
  function Budget(unknown: string): nat {
    if |unknown| / 3 > 2 then |unknown| / 3 else 2
  }

  /** Two edits are always near enough, and so is one in three characters. */
  predicate Near(unknown: string, distance: nat) {
    distance <= 2 || 3 * distance <= |unknown|
  }

  lemma {:induction false} BudgetIff(unknown: string, distance: nat)
    ensures distance <= Budget(unknown) <==> Near(unknown, distance)
  {
  }

  /** `name` is that of flag `k`: near enough, nearest of all, and the first of the nearest. */
  ghost predicate IsNearest(flags: seq<KnownFlag>, unknown: string, name: string, k: nat)
    requires k < |flags|
  {
    && flags[k].name == name
    && Near(unknown, Distance(unknown, name))
    && (forall j :: 0 <= j < |flags| ==> Distance(unknown, name) <= Distance(unknown, flags[j].name))
    && (forall j :: 0 <= j < k ==> Distance(unknown, name) < Distance(unknown, flags[j].name))
  }

  ghost predicate NoneNear(flags: seq<KnownFlag>, unknown: string) {
    forall j :: 0 <= j < |flags| ==> !Near(unknown, Distance(unknown, flags[j].name))
  }

  /** The bounded argmin over the table; the empty name stands for "no suggestion". */
  method NearestFlag(flags: seq<KnownFlag>, unknown: string) returns (best: string)
    ensures best == "" <==> NoneNear(flags, unknown)
    ensures best != "" ==> exists k :: 0 <= k < |flags| && IsNearest(flags, unknown, best, k)
  {
    hide Distance, Budget;
    best := "";
    var bestDistance := 0;
    ghost var at := 0;
    for k := 0 to |flags|
      invariant best == "" <==> NoneNear(flags[..k], unknown)
      invariant best != "" ==> bestDistance == Distance(unknown, best)
      invariant best != "" ==> 0 <= at < k && IsNearest(flags[..k], unknown, best, at)
    {
      var candidate := flags[k].name;
      var distance := ComputeEditDistance(unknown, candidate);
      assert flags[..k + 1] == flags[..k] + [flags[k]];
      BudgetIff(unknown, distance);
      if distance <= Budget(unknown) && (best == "" || distance < bestDistance) {
        best := candidate;
        bestDistance := distance;
        at := k;
      }
    }
    assert flags[..|flags|] == flags;
  }

  // ----- The validator -----

  /** Argument `i` is the value of the option before it. */
  ghost predicate IsValue(flags: seq<KnownFlag>, args: seq<string>, i: nat)
    requires i < |args|
    decreases i, 0
  {
    i >= 1 && IsOption(flags, args, i - 1)
    && Find(flags, args[i - 1]).Some? && Find(flags, args[i - 1]).value.arity.TakesValue?
  }

  /** Argument `i` starts with two dashes and is nobody's value. Argument 0 is the program. */
  ghost predicate IsOption(flags: seq<KnownFlag>, args: seq<string>, i: nat)
    requires i < |args|
    decreases i, 1
  {
    i >= 1 && "--" <= args[i] && !IsValue(flags, args, i)
  }

  /** A bare "--" before argument `i` ended the options. */
  ghost predicate OptionsEnded(flags: seq<KnownFlag>, args: seq<string>, i: nat)
    requires i <= |args|
  {
    exists k :: 0 <= k < i && args[k] == "--" && IsOption(flags, args, k)
  }

  /** Argument `i` is an option this executable does not have. */
  ghost predicate IsUnknownOption(flags: seq<KnownFlag>, args: seq<string>, i: nat)
    requires i < |args|
  {
    IsOption(flags, args, i) && args[i] != "--" && !OptionsEnded(flags, args, i) && Find(flags, args[i]).None?
  }

  datatype Rejection = Rejection(option: string, nearest: string)

  /** The error names the first unknown option and, when some flag is near, the nearest one. */
  ghost predicate IsRejection(flags: seq<KnownFlag>, args: seq<string>, r: Rejection, i: nat)
    requires i < |args|
  {
    && IsUnknownOption(flags, args, i) && r.option == args[i]
    && (forall j :: 0 <= j < i ==> !IsUnknownOption(flags, args, j))
    && (if r.nearest == "" then NoneNear(flags, r.option)
        else exists k :: 0 <= k < |flags| && IsNearest(flags, r.option, r.nearest, k))
  }

  lemma {:induction false} BareDashesAreUnknown(flags: seq<KnownFlag>)
    ensures Find(flags, "--").None?
  {
    FindIsFirst(flags, "--");
  }

  /** Scans argv once, skipping values, and stops at the first unknown option or at a bare "--". */
  method ValidateCommandLine(flags: seq<KnownFlag>, args: seq<string>) returns (error: Option<Rejection>)
    ensures error.None? <==> forall i :: 0 <= i < |args| ==> !IsUnknownOption(flags, args, i)
    ensures error.Some? ==> exists i :: 0 <= i < |args| && IsRejection(flags, args, error.value, i)
  {
    BareDashesAreUnknown(flags);
    var index := 1;
    while index < |args|
      invariant 1 <= index
      invariant index < |args| ==> !IsValue(flags, args, index)
      invariant index <= |args| ==> !OptionsEnded(flags, args, index)
      invariant forall j :: 0 <= j < index && j < |args| ==> !IsUnknownOption(flags, args, j)
    {
      var argument := args[index];
      if IsLongOption(argument) {
        assert IsOption(flags, args, index);
        if argument == "--" {
          break;
        }
        var flag := FindFlag(flags, argument);
        if flag.None? {
          var nearest := NearestFlag(flags, argument);
          assert IsRejection(flags, args, Rejection(argument, nearest), index);
          return Some(Rejection(argument, nearest));
        }
        if flag.value.arity.TakesValue? {
          index := index + 1;
          assert index < |args| ==> IsValue(flags, args, index);
        }
      }
      index := index + 1;
    }
    return None;
  }

  /** A flag of the table, given with its value when it takes one, is always accepted. */
  lemma {:induction false} RegisteredFlagValidates(flags: seq<KnownFlag>, k: nat, program: string, value: string)
    requires k < |flags|
    ensures var flag := Find(flags, flags[k].name);
            flag.Some? &&
            var args := [program, flags[k].name] + if flag.value.arity.TakesValue? then [value] else [];
            forall i :: 0 <= i < |args| ==> !IsUnknownOption(flags, args, i)
  {
    FindIsFirst(flags, flags[k].name);
    var flag := Find(flags, flags[k].name).value;
    var args := [program, flags[k].name] + if flag.arity.TakesValue? then [value] else [];
    assert args[1] == flags[k].name && !IsValue(flags, args, 1) && IsOption(flags, args, 1);
    forall i | 0 <= i < |args| ensures !IsUnknownOption(flags, args, i) {
      if i == 2 {
        assert IsValue(flags, args, 2) && !IsOption(flags, args, 2);
      }
    }
  }

  /** The executable's own entry point: the validator over its own table. */
  method ValidateOwnCommandLine(args: seq<string>) returns (error: Option<Rejection>)
    ensures error.None? <==> forall i :: 0 <= i < |args| ==> !IsUnknownOption(KnownCommandLineFlags(), args, i)
    ensures error.Some? ==> exists i :: 0 <= i < |args| && IsRejection(KnownCommandLineFlags(), args, error.value, i)
  {
    hide KnownCommandLineFlags, IsUnknownOption, IsRejection;
    error := ValidateCommandLine(KnownCommandLineFlags(), args);
  }
}
