/** The proof of ownership a run's writes carry into the stores beside the task store. */
module RunFence {
  /** Whether the run's lease still holds, and the run it belongs to. */
  datatype Fence = Fence(holds: bool, taskId: string)
}
