/**
 The output file name of a track: the event location lower-cased, with
 every space replaced by a hyphen, under `tracks/` with the `.svg`
 extension. Lower-casing is that of ASCII letters.
 */
module TrackName {

  predicate IsAsciiUpper(ch: char) {
    'A' <= ch <= 'Z'
  }

  /** ASCII lower-casing of one character; every other character is kept. */
  function LowerChar(ch: char): (r: char)
    ensures !IsAsciiUpper(r)
    ensures IsAsciiUpper(ch) ==> r as int == ch as int + 32
    ensures !IsAsciiUpper(ch) ==> r == ch
  {
    if IsAsciiUpper(ch) then (ch as int + 32) as char else ch
  }

  /** `str.lower()` on ASCII text. */
  function Lower(s: string): (r: string)
    ensures |r| == |s|
    ensures forall i :: 0 <= i < |s| ==> r[i] == LowerChar(s[i])
    decreases |s|
  {
    if s == [] then [] else [LowerChar(s[0])] + Lower(s[1..])
  }

  /** `str.replace(" ", "-")`: every space becomes a hyphen. */
  function ReplaceSpaces(s: string): (r: string)
    ensures |r| == |s|
    ensures forall i :: 0 <= i < |s| ==> r[i] == (if s[i] == ' ' then '-' else s[i])
    decreases |s|
  {
    if s == [] then [] else [if s[0] == ' ' then '-' else s[0]] + ReplaceSpaces(s[1..])
  }

  /** `str(event['Location']).lower().replace(" ", "-")`: a name of the
      location's length with no ASCII capital and no space, where spaces
      became hyphens, capitals their small letters, and every other
      character stays where it was. */
  function Normalize(location: string): (n: string)
    ensures |n| == |location|
    ensures forall i :: 0 <= i < |n| ==> !IsAsciiUpper(n[i]) && n[i] != ' '
    ensures forall i :: 0 <= i < |n| && location[i] == ' ' ==> n[i] == '-'
    ensures forall i :: 0 <= i < |n| && IsAsciiUpper(location[i]) ==>
      n[i] as int == location[i] as int + 32
    ensures forall i :: 0 <= i < |n| && location[i] != ' ' && !IsAsciiUpper(location[i]) ==>
      n[i] == location[i]
  {
    ReplaceSpaces(Lower(location))
  }

  /** `"tracks/" + track_name + ".svg"`: the file sits in `tracks/`, ends
      in `.svg`, its stem is the normalised location, and it contains no
      space. */
  function TrackFile(location: string): (f: string)
    ensures |f| == |location| + 11
    ensures f[..7] == "tracks/"
    ensures f[|f| - 4..] == ".svg"
    ensures f[7..|f| - 4] == Normalize(location)
    ensures forall i :: 0 <= i < |f| ==> f[i] != ' '
  {
    var n := Normalize(location);
    var f := "tracks/" + n + ".svg";
    assert forall i :: 7 <= i < 7 + |n| ==> f[i] == n[i - 7];
    f
  }

  /** Normalising a name that is already normalised changes nothing. */
  lemma NormalizeIdempotent(location: string)
    ensures Normalize(Normalize(location)) == Normalize(location)
  {
    var n := Normalize(location);
    var nn := Normalize(n);
    assert |nn| == |n|;
    forall i | 0 <= i < |n| ensures nn[i] == n[i] {
      assert !IsAsciiUpper(n[i]) && n[i] != ' ';
    }
  }
}
