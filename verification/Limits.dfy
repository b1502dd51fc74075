/** Limits of the compiler, from wren_compiler.c and wren_common.h. */
module Limits {
  const MAX_LOCALS := 256
  const MAX_PARAMETERS := 16
  const MAX_CONSTANTS := 65536
  const MAX_JUMP := 65536
  const MAX_METHOD_NAME := 64
  const MAX_VARIABLE_NAME := 64
}
