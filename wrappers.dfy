/** Optional values: Kotlin's nullable types (`BlockPos?`, `Pair<Int, Int>?`, `EnumFacing?`). */
module Wrappers {
  datatype Option<+T> = None | Some(value: T)
}
