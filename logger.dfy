/** The one pure helper of the debugging logger: shortening a string to a length budget. */
module Logger {
  /** Python's `s[:k]`: a negative `k` drops `-k` characters from the end. */
  function PyPrefix(s: string, k: int): (r: string)
    ensures |r| == if k >= 0 then (if k <= |s| then k else |s|) else (if |s| + k >= 0 then |s| + k else 0)
    ensures r == s[..|r|]
  {
    if k >= 0 then (if k <= |s| then s[..k] else s)
    else if |s| + k >= 0 then s[..|s| + k]
    else []
  }

  /**
   * `Logger.truncate`: a value within the budget is returned as it is; a longer
   * one is cut to `maxLength - 3` characters (Python slicing) and "..." is added.
   */
  function Truncate(value: string, maxLength: int): (r: string)
    ensures |value| <= maxLength ==> r == value
    ensures |value| > maxLength ==> |r| >= 3 && |r| - 3 <= |value| && r[|r| - 3..] == "..." && r[..|r| - 3] == value[..|r| - 3]
    ensures |value| > maxLength >= 3 ==> |r| == maxLength
    ensures |value| > maxLength && maxLength < 3 ==>
      |r| == if |value| + maxLength >= 3 then |value| + maxLength else 3
  {
    if |value| <= maxLength then value
    else PyPrefix(value, maxLength - 3) + "..."
  }
}
