/** Result codes and small types shared by the components of the runtime. */
module Common {

  /** nos_status_t, as far as the modelled operations return it. */
  datatype Status = Ok | Err | Busy

  /** The room of a thread's timer heap. */
  const TIMER_HEAP_CAPACITY: nat := 128

  /** nos_comp_status_t. */
  datatype CompStatus = Loaded | Inited | Active | Stopped | Faulty

  datatype Option<+T> = None | Some(value: T)
}
