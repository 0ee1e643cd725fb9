/**
 * The command-line file name test of get_filename in main.py: exactly one
 * argument, naming an existing file whose last four characters are ".jpg".
 * Whether the file exists is the isFile parameter.
 */
module Filename {
  import opened Wrappers

  /** A Python slice bound: negative counts from the end, then clamped into [0, n]. */
  function SliceBound(i: int, n: nat): (b: nat)
    ensures b <= n
  {
    if i < 0 then (if i + n < 0 then 0 else i + n)
    else if i > n then n
    else i
  }

  /** Python's s[start:stop]. */
  function Slice(s: string, start: int, stop: int): string {
    var a, b := SliceBound(start, |s|), SliceBound(stop, |s|);
    if a <= b then s[a..b] else []
  }

  /** filename[lf-4:lf] == ".jpg": true exactly for names of four or more characters ending in ".jpg". */
  predicate HasJpgSuffix(filename: string)
    ensures HasJpgSuffix(filename) <==> |filename| >= 4 && filename[|filename| - 4..] == ".jpg"
  {
    var lf := |filename|;
    Slice(filename, lf - 4, lf) == ".jpg"
  }

  /** Names shorter than four characters are rejected: the slice is then shorter than ".jpg". */
  lemma ShortNameRejected(filename: string)
    requires |filename| < 4
    ensures !HasJpgSuffix(filename)
    ensures |Slice(filename, |filename| - 4, |filename|)| < 4
  {
  }

  /**
   * get_filename without its messages and exit: the file name, or None where
   * the source prints an error and exits.
   */
  function GetFilename(argv: seq<string>, isFile: string -> bool): (r: Option<string>)
    ensures r.Some? <==>
              |argv| == 2 && isFile(argv[1]) && |argv[1]| >= 4 && argv[1][|argv[1]| - 4..] == ".jpg"
    ensures r.Some? ==> r.value == argv[1]
  {
    if |argv| != 2 then None
    else if !isFile(argv[1]) || !HasJpgSuffix(argv[1]) then None
    else Some(argv[1])
  }
}
