/**
 * What the two backup commands share: the file-name sanitisation, the
 * backup file name and the progress task they step.
 */
module Backup {

  /**
   * `Path.GetInvalidFileNameChars()`: whatever the platform forbids in a
   * file name, except that `_`, the replacement character, is never one.
   */
  type InvalidChars = s: set<char> | '_' !in s

  /** A character, or `_` in its place if it is not allowed in a file name. */
  function SafeChar(c: char, invalid: InvalidChars): char
  {
    if c in invalid then '_' else c
  }

  /** The name with every character not allowed in a file name replaced by `_`. */
  function SafeName(name: string, invalid: InvalidChars): (r: string)
    ensures |r| == |name|
  {
    if name == [] then []
    else [SafeChar(name[0], invalid)] + SafeName(name[1..], invalid)
  }

  /**
   * Sanitising keeps the length, puts `_` exactly where a forbidden
   * character was, keeps every other character, and leaves no forbidden
   * character.
   */
  lemma {:induction false} SafeNameSpec(name: string, invalid: InvalidChars)
    ensures var r := SafeName(name, invalid);
      && (forall i :: 0 <= i < |name| && name[i] in invalid ==> r[i] == '_')
      && (forall i :: 0 <= i < |name| && name[i] !in invalid ==> r[i] == name[i])
      && (forall i :: 0 <= i < |r| ==> r[i] !in invalid)
  {
    if name != [] {
      SafeNameSpec(name[1..], invalid);
      var r := SafeName(name, invalid);
      assert forall i :: 1 <= i < |name| ==> r[i] == SafeName(name[1..], invalid)[i - 1] && name[i] == name[1..][i - 1];
    }
  }

  /** Sanitising twice is sanitising once, because `_` is allowed. */
  lemma SafeNameIdempotent(name: string, invalid: InvalidChars)
    ensures SafeName(SafeName(name, invalid), invalid) == SafeName(name, invalid)
  {
    SafeNameSpec(name, invalid);
    var once := SafeName(name, invalid);
    SafeNameSpec(once, invalid);
    var twice := SafeName(once, invalid);
    assert forall i :: 0 <= i < |once| ==> twice[i] == once[i];
  }

  /** A name made only of allowed characters is left alone. */
  lemma SafeNameOfValid(name: string, invalid: InvalidChars)
    requires forall i :: 0 <= i < |name| ==> name[i] !in invalid
    ensures SafeName(name, invalid) == name
  {
    SafeNameSpec(name, invalid);
    var r := SafeName(name, invalid);
    assert forall i :: 0 <= i < |name| ==> r[i] == name[i];
  }

  /** The prefix of query backups. */
  const QueryPrefix := "Q-"

  /** The prefix of dashboard backups. */
  const DashboardPrefix := "D-"

  /** The extension of every backup file. */
  const Extension := ".json"

  /** The backup file of an item: the prefix, its sanitised name and `.json`. */
  function BackupFileName(prefix: string, name: string, invalid: InvalidChars): string
  {
    prefix + SafeName(name, invalid) + Extension
  }

  /** The file name reads back as the prefix, the sanitised name and `.json`. */
  lemma BackupFileNameParts(prefix: string, name: string, invalid: InvalidChars)
    ensures var r := BackupFileName(prefix, name, invalid);
      && |r| == |prefix| + |name| + |Extension|
      && r[..|prefix|] == prefix
      && r[|r| - |Extension|..] == Extension
      && r[|prefix|..|r| - |Extension|] == SafeName(name, invalid)
  {
  }

  /** When the prefix and the extension are allowed, the whole file name is. */
  lemma BackupFileNameValid(prefix: string, name: string, invalid: InvalidChars)
    requires forall i :: 0 <= i < |prefix| ==> prefix[i] !in invalid
    requires forall i :: 0 <= i < |Extension| ==> Extension[i] !in invalid
    ensures forall i :: 0 <= i < |BackupFileName(prefix, name, invalid)| ==> BackupFileName(prefix, name, invalid)[i] !in invalid
  {
    var r := BackupFileName(prefix, name, invalid);
    var safe := SafeName(name, invalid);
    SafeNameSpec(name, invalid);
    forall i | 0 <= i < |r| ensures r[i] !in invalid {
      if i < |prefix| {
        assert r[i] == prefix[i];
      } else if i < |prefix| + |safe| {
        assert r[i] == safe[i - |prefix|];
      } else {
        assert r[i] == Extension[i - |prefix| - |safe|];
      }
    }
  }

  /**
   * Sanitising loses information: a name holding a forbidden character and
   * the same name with `_` in its place are backed up to the same file, so
   * the later backup overwrites the earlier one.
   */
  lemma SanitisedNamesCollide(prefix: string, before: string, c: char, after: string, invalid: InvalidChars)
    requires c in invalid
    ensures before + [c] + after != before + "_" + after
    ensures BackupFileName(prefix, before + [c] + after, invalid) == BackupFileName(prefix, before + "_" + after, invalid)
  {
    assert (before + [c] + after)[|before|] == c;
    assert (before + "_" + after)[|before|] == '_';
    var x := SafeName(before + [c] + after, invalid);
    var y := SafeName(before + "_" + after, invalid);
    SafeNameSpec(before + [c] + after, invalid);
    SafeNameSpec(before + "_" + after, invalid);
    assert forall i :: 0 <= i < |x| ==> x[i] == y[i] by {
      forall i | 0 <= i < |x| ensures x[i] == y[i] {
        if i < |before| {
          assert (before + [c] + after)[i] == before[i] == (before + "_" + after)[i];
        } else if i > |before| {
          assert (before + [c] + after)[i] == after[i - |before| - 1] == (before + "_" + after)[i];
        }
      }
    }
  }

  /** One file a backup writes: its name and the id whose raw JSON it holds. */
  datatype BackupWrite = BackupWrite(fileName: string, id: string)

  /** Spectre's `ProgressTask`, reduced to the two numbers the commands set. */
  class ProgressTask {
    var maxValue: int
    var value: int

    /** `ctx.AddTask(...)`. */
    constructor (maxValue: int)
      ensures this.maxValue == maxValue && value == 0
    {
      this.maxValue := maxValue;
      value := 0;
    }
  }
}
