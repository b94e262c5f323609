/** How many flush colours a workqueue has (workqueue.c). */
module WorkColors {
  const WORK_NR_COLORS: int := 15
}
