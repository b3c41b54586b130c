/**
 * The record types shared by the supervisor: one thread's scheduling
 * counters (struct thread_state), a snapshot of all threads of the watched
 * process (struct state_list), and the signals the supervisor sends.
 */
module Types {

  datatype Option<+T> = None | Some(value: T)

  /** unsigned long on an LP64 Linux target */
  const ULONG_MODULUS: int := 0x1_0000_0000_0000_0000
  const ULONG_MAX: int := ULONG_MODULUS - 1
  type ulong = x: int | 0 <= x < ULONG_MODULUS

  /** int on the same target: the type of a raw wait status */
  type int32 = x: int | -0x8000_0000 <= x < 0x8000_0000

  /**
   * One thread's line of /proc/<pid>/task/<tid>/stat, reduced to the four
   * fields the supervisor reads: the thread id, its state letter
   * ('S' is interruptible sleep) and its user and system time in clock ticks.
   */
  datatype ThreadState = ThreadState(pid: int, state: char, utime: ulong, stime: ulong)

  /** what calloc leaves in a thread_state before anything is parsed into it */
  const ZeroThreadState: ThreadState := ThreadState(0, '\0', 0, 0)

  /** the threads of the watched process at one instant, in enumeration order */
  type Snapshot = seq<ThreadState>

  /**
   * A pointer to a struct state_list together with the list it points to.
   * The address is what `thread_states != current` compares; two lists
   * obtained by different get_states calls have different addresses.
   */
  datatype ListRef = ListRef(addr: nat, states: Snapshot)

  /** the two signals the monitor escalates between (Linux numbering) */
  datatype Signal = SIGTERM | SIGKILL {
    function Number(): (n: int)
      ensures n == 9 || n == 15
      ensures (n == 15) == (this == SIGTERM)
    {
      match this
      case SIGTERM => 15
      case SIGKILL => 9
    }
  }

  const EXIT_SUCCESS: int := 0
  const EXIT_FAILURE: int := 1
}
