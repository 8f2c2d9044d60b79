/**
 * Running a task: the registry of executors keyed by task id, and one
 * executor's run. The worker thread, the external process and the dialogs
 * are not modelled; their results (whether the output directory exists,
 * the user's answers, how the process ended) are parameters.
 */
module Execution {
  import opened Wrappers
  import opened ProfileModel

  /** How a run ends, as reported in the output window. */
  datatype Outcome = Done | Failed | Canceled

  /** How waiting for the process ended. */
  datatype ProcessResult = Exited(code: int) | Interrupted | ExecutionFailed

  /** `runProcess`: the exit code, or -1 when the wait was interrupted or the execution failed. */
  function ExitCode(p: ProcessResult): (code: int)
    ensures p.Exited? ==> code == p.code
    ensures !p.Exited? ==> code == -1
  {
    match p
    case Exited(c) => c
    case _ => -1
  }

  /** The end of the worker: exit code 0 is DONE, any other code FAILED. */
  function Classify(exitCode: int): (o: Outcome)
    ensures o == Done <==> exitCode == 0
    ensures o == Failed <==> exitCode != 0
  {
    if exitCode == 0 then Done else Failed
  }

  /** `initTargetDirectory`: go on when the output does not exist, or when the user agrees to clear it. */
  function MayProceed(outputExists: bool, confirmClear: bool): (r: bool)
    ensures r <==> !outputExists || confirmClear
  {
    if outputExists then confirmClear else true
  }

  /** The outcome of the worker for the given inputs. */
  function RunOutcome(outputExists: bool, confirmClear: bool, process: ProcessResult): (o: Outcome)
    ensures o == Canceled <==> outputExists && !confirmClear
    ensures o == Done <==> MayProceed(outputExists, confirmClear) && process == Exited(0)
  {
    if MayProceed(outputExists, confirmClear) then Classify(ExitCode(process)) else Canceled
  }

  /** An interrupted wait or a failed execution never counts as success. */
  lemma InterruptedFails(outputExists: bool, confirmClear: bool, process: ProcessResult)
    requires !process.Exited?
    ensures RunOutcome(outputExists, confirmClear, process) != Done
  {
  }

  /** What `ProcessBuilder` is given: the executable and its arguments. */
  datatype Invocation = Invocation(executable: string, arguments: seq<string>)

  /** `runProcess`: the first command element is the executable, the rest are the arguments. */
  function InvocationOf(command: seq<string>): (inv: Invocation)
    requires command != []
    ensures [inv.executable] + inv.arguments == command
  {
    Invocation(command[0], command[1..])
  }

  /** For a profile's command line, the executable is its jlink. */
  lemma InvocationOfCommand(p: Profile, o: Options)
    requires CanBuildCommand(p)
    ensures InvocationOf(CommandLine(p, o)).executable == p.JlinkString(o)
    ensures |InvocationOf(CommandLine(p, o)).arguments| >= 7
  {
    var c := CommandLine(p, o);
    assert c[0] == p.JlinkString(o);
    assert |ModuleArgs(p.modulePaths.value, o)| == 4;
  }

  class Executor {
    const task: Profile
    /** `mRunning`. */
    var running: bool
    /** The status text `jobEnded` shows, once the run has ended. */
    var outcome: Option<Outcome>
    /** Whether the output directory was deleted before the process started. */
    var cleared: bool
    /** The invocation handed to the process builder, once the process has started. */
    var invoked: Option<Invocation>

    constructor (task: Profile)
      ensures this.task == task && !running && outcome.None? && !cleared && invoked.None?
    {
      this.task := task;
      running := false;
      outcome := None;
      cleared := false;
      invoked := None;
    }

    /** `run`: raises the running flag; the worker it spawns is `Work`. */
    method Run()
      modifies this
      ensures running && outcome == old(outcome) && cleared == old(cleared) && invoked == old(invoked)
    {
      running := true;
    }

    /** `initTargetDirectory`: asks only when the output exists, and clears it when the answer is yes. */
    method InitTargetDirectory(outputExists: bool, confirmClear: bool) returns (result: bool)
      modifies this`cleared
      ensures result == MayProceed(outputExists, confirmClear)
      ensures cleared == (old(cleared) || (outputExists && confirmClear))
    {
      result := true;
      if outputExists {
        result := confirmClear;
        if result {
          cleared := true;
        }
      }
    }

    /** The worker body: print the command, prepare the target, run the
        process, report, and leave the registry. Printing the command
        builds it first; for a task whose command cannot be built the
        thread dies there, so nothing is reported and the task stays
        registered. */
    method Work(registry: ExecutorManager, outputExists: bool, confirmClear: bool, process: ProcessResult)
      requires invoked.None?
      modifies this, registry
      ensures !CanBuildCommand(task) ==>
                outcome == old(outcome) && invoked.None? && cleared == old(cleared)
                && registry.executors == old(registry.executors)
      ensures CanBuildCommand(task) ==>
                outcome == Some(RunOutcome(outputExists, confirmClear, process))
                && (invoked.Some? <==> MayProceed(outputExists, confirmClear))
                && (invoked.Some? ==> invoked.value == InvocationOf(CommandLine(task, registry.options)))
                && cleared == (old(cleared) || (outputExists && confirmClear))
                && registry.executors == old(registry.executors) - {task.id}
      ensures running == old(running) && registry.options == old(registry.options)
    {
      if CanBuildCommand(task) {
        RunBuilt(registry, outputExists, confirmClear, process);
      }
    }

    /** The worker body from `initTargetDirectory` on, for a task whose command can be built. */
    method RunBuilt(registry: ExecutorManager, outputExists: bool, confirmClear: bool, process: ProcessResult)
      requires CanBuildCommand(task) && invoked.None?
      modifies this, registry
      ensures outcome == Some(RunOutcome(outputExists, confirmClear, process))
      ensures invoked.Some? <==> MayProceed(outputExists, confirmClear)
      ensures invoked.Some? ==> invoked.value == InvocationOf(CommandLine(task, registry.options))
      ensures cleared == (old(cleared) || (outputExists && confirmClear))
      ensures registry.executors == old(registry.executors) - {task.id}
      ensures running == old(running) && registry.options == old(registry.options)
    {
      var proceed := InitTargetDirectory(outputExists, confirmClear);
      if proceed {
        var command := GetCommand(task, registry.options);
        invoked := Some(InvocationOf(command));
        var result := ExitCode(process);
        if result == 0 {
          outcome := Some(Done);
        } else {
          outcome := Some(Failed);
        }
      } else {
        outcome := Some(Canceled);
      }
      registry.Remove(task.id);
    }

    /** The cancel action of the progress handle. */
    method Cancel(registry: ExecutorManager)
      modifies this, registry
      ensures !running && outcome == Some(Canceled)
      ensures cleared == old(cleared) && invoked == old(invoked)
      ensures registry.executors == old(registry.executors) - {task.id}
      ensures registry.options == old(registry.options)
    {
      running := false;
      registry.Remove(task.id);
      outcome := Some(Canceled);
    }
  }

  class ExecutorManager {
    /** `mExecutors`. */
    var executors: map<string, Executor>
    /** The preferences the command builder reads. */
    var options: Options

    /** Every registered executor is filed under its own task's id. */
    ghost predicate Valid()
      reads this
    {
      forall id :: id in executors ==> executors[id].task.id == id
    }

    /** The registry starts empty. */
    constructor (options: Options)
      ensures Valid() && executors == map[] && this.options == options
    {
      executors := map[];
      this.options := options;
    }

    method Remove(id: string)
      modifies this
      ensures executors == old(executors) - {id} && options == old(options)
    {
      executors := executors - {id};
    }

    /** `start(task)`: registers a new executor under the task's id and runs it. */
    method Start(task: Profile) returns (executor: Executor)
      requires Valid()
      modifies this
      ensures Valid() && fresh(executor)
      ensures executors == old(executors)[task.id := executor]
      ensures executor.task == task && executor.running && executor.outcome.None?
      ensures options == old(options)
    {
      executor := new Executor(task);
      executors := executors[task.id := executor];
      executor.Run();
    }

    /** `requestStart(task)`: refuses a task that is already registered;
        otherwise starts it when the dialog answer is the run button. */
    method RequestStart(task: Profile, runChosen: bool) returns (alreadyRunning: bool, started: Option<Executor>)
      requires Valid()
      modifies this
      ensures Valid() && options == old(options)
      ensures alreadyRunning <==> task.id in old(executors)
      ensures started.Some? <==> !alreadyRunning && runChosen
      ensures started.None? ==> executors == old(executors)
      ensures started.Some? ==>
                fresh(started.value) && started.value.task == task && started.value.running
                && executors == old(executors)[task.id := started.value]
      ensures forall id :: id in old(executors) ==> id in executors && executors[id] == old(executors)[id]
    {
      alreadyRunning := task.id in executors;
      started := None;
      if !alreadyRunning && runChosen {
        var executor := Start(task);
        started := Some(executor);
      }
    }
  }
}
