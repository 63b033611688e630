/** The host side of the bridge: cmdlet instances, threads, the host calls a
    marshalled action performs, and the record of what ran on which thread. */
module Host {
  import opened Exceptions

  type Cmdlet = nat
  type ThreadId = nat
  /** An object handed to the host (a record, an error record, progress ...). */
  type Value = nat
  /** A `SendOrPostCallback` delegate posted by a resuming continuation. */
  type CallbackId = nat

  /** The host API calls the bridge marshals onto the host thread. */
  datatype HostCall =
    | WriteObject(obj: Value, enumerateCollection: bool)
    | WriteError(error: Value)
    | WriteWarning(message: string)
    | WriteVerbose(message: string)
    | WriteInformation(information: Value)
    | WriteInformationData(messageData: Value, tags: seq<string>)
    | WriteProgress(progress: Value)
    | Custom(id: nat)   // any other `Action<TCmdlet>` given to QueueAction

  /** A delegate to run against the cmdlet: the host call it makes and what
      that call does when it runs (returns a value, or throws). */
  datatype Work<+T> = Work(call: HostCall, result: Outcome<T>)

  /** One piece of code that ran, and the thread it ran on. */
  datatype Executed =
    | Body(thread: ThreadId, cmdlet: Cmdlet, call: HostCall)
    | Continuation(thread: ThreadId, callback: CallbackId, state: Value)
}
