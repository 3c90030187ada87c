/** The values of awk (src/awk_value.h); a StrNum looks like a number and came from input. */
module AwkValues {

  datatype AwkValue = Uninit | Num(num: real) | Str(text: string) | StrNum(text: string)
}
