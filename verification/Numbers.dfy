/** Powers of two and the error numbers that the modules share. */
module Numbers {
  const TWO31 := 0x8000_0000
  const TWO32 := 0x1_0000_0000
  const TWO48 := 0x1_0000_0000_0000
  const TWO63 := 0x8000_0000_0000_0000
  const TWO64 := 0x1_0000_0000_0000_0000

  const INT16_MAX := 0x7fff
  const INT32_MAX := 0x7fff_ffff

  const ENOENT := -2
  const E2BIG := -7
  const ENOMEM := -12
  const EFAULT := -14
  const EEXIST := -17
  const EINVAL := -22
  const ENOSPC := -28
  const EDOM := -33
  const ERANGE := -34
  const ELOOP := -40
  const EMSGSIZE := -90
  const ENOTSUP := -95
}
