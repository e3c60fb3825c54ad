/** `get_flag` (src/cli/utils.rs): the value following the first occurrence of a flag. */
module CliUtils {
  import opened Wrappers
  import opened Errors

  /** Index of the first occurrence of `x` in `s`. */
  function FirstIndex(s: seq<string>, x: string): (i: nat)
    requires x in s
    ensures i < |s| && s[i] == x
    ensures forall j :: 0 <= j < i ==> s[j] != x
  {
    if s[0] == x then 0 else 1 + FirstIndex(s[1..], x)
  }

  /**
   * Looks `flag` up in `args`. `fromStr` stands for the target type's `FromStr::from_str`,
   * returning the parsed value or the text of its error.
   */
  method GetFlag<T>(flag: string, args: seq<string>, fromStr: string -> Result<T, string>)
    returns (r: Result<T, Error>)
    ensures flag !in args ==> r == Err(MissingArgument(flag))
    ensures flag in args && FirstIndex(args, flag) == |args| - 1 ==> r == Err(UncompletedArgument(flag))
    ensures flag in args && FirstIndex(args, flag) < |args| - 1 ==>
      var parsed := fromStr(args[FirstIndex(args, flag) + 1]);
      r == if parsed.Ok? then Ok(parsed.value) else Err(Parsing(flag, parsed.error))
  {
    var i := 0;
    while i < |args|
      invariant 0 <= i <= |args|
      invariant forall j :: 0 <= j < i ==> args[j] != flag
    {
      if args[i] == flag {
        assert FirstIndex(args, flag) == i;
        if i + 1 < |args| {
          match fromStr(args[i + 1]) {
            case Ok(v) => return Ok(v);
            case Err(message) => return Err(Parsing(flag, message));
          }
        } else {
          return Err(UncompletedArgument(flag));
        }
      }
      i := i + 1;
    }
    return Err(MissingArgument(flag));
  }
}
