/** Source resolution: the first directory of the source tree's walk whose
    path contains the date and which holds a file named like the template. */
module Sources {
  import opened Common
  import opened Text
  import opened Dates

  /** One `(root, dirs, files)` triple produced by `os.walk`; the
      sub-directory names play no part in the search. */
  datatype WalkEntry = WalkEntry(root: string, files: seq<string>)

  /** The test applied to each directory: the date string occurs anywhere in
      the whole path, and the template name is exactly one of its file names. */
  predicate Matches(e: WalkEntry, name: string, stamp: string) {
    Contains(e.root, stamp) && name in e.files
  }

  /** Index of the first matching entry. */
  function FirstMatch(walk: seq<WalkEntry>, name: string, stamp: string): (r: Option<nat>)
    ensures r.None? <==> forall i :: 0 <= i < |walk| ==> !Matches(walk[i], name, stamp)
    ensures r.Some? ==> r.value < |walk| && Matches(walk[r.value], name, stamp)
    ensures r.Some? ==> forall i :: 0 <= i < r.value ==> !Matches(walk[i], name, stamp)
    decreases |walk|
  {
    if |walk| == 0 then None
    else if Matches(walk[0], name, stamp) then Some(0)
    else match FirstMatch(walk[1..], name, stamp)
      case None => None
      case Some(i) => Some(i + 1)
  }

  /** `find_source_file(template_name, date)`: `os.path.join(root, name)` for
      the first matching directory, None when there is none. A path it finds
      always ends with the template's name (FindSourceSpec says which one). */
  function FindSource(walk: seq<WalkEntry>, name: string, date: Date): (r: Option<string>)
    requires Valid(date)
    ensures r.Some? ==> EndsWith(r.value, name)
  {
    match FirstMatch(walk, name, Format(date))
    case None => None
    case Some(i) =>
      JoinPathShape(walk[i].root, name);
      Some(JoinPath(walk[i].root, name))
  }

  /** The three parts of the search's contract: the path of the first match,
      None when nothing matches, and no earlier entry matching. */
  lemma FindSourceSpec(walk: seq<WalkEntry>, name: string, date: Date)
    requires Valid(date)
    ensures FindSource(walk, name, date).None? <==>
      forall i :: 0 <= i < |walk| ==> !(Contains(walk[i].root, Format(date)) && name in walk[i].files)
    ensures FindSource(walk, name, date).Some? ==>
      exists i :: 0 <= i < |walk| && Contains(walk[i].root, Format(date)) && name in walk[i].files
        && FindSource(walk, name, date).value == JoinPath(walk[i].root, name)
        && forall j :: 0 <= j < i ==> !Matches(walk[j], name, Format(date))
  {
    var r := FirstMatch(walk, name, Format(date));
    if r.Some? {
      assert Matches(walk[r.value], name, Format(date));
    }
  }

  /** A date that occurs in no directory path matches nothing. */
  lemma DateAbsentNoMatch(walk: seq<WalkEntry>, name: string, date: Date)
    requires Valid(date)
    requires forall i :: 0 <= i < |walk| ==> !Contains(walk[i].root, Format(date))
    ensures FindSource(walk, name, date) == None
  {
  }

  /** A name that no directory holds matches nothing, whatever the date. */
  lemma NameAbsentNoMatch(walk: seq<WalkEntry>, name: string, date: Date)
    requires Valid(date)
    requires forall i :: 0 <= i < |walk| ==> name !in walk[i].files
    ensures FindSource(walk, name, date) == None
  {
  }

  /** The search over a walk split in two: the first part wins whenever it
      has a match, the second part is consulted only otherwise. */
  lemma {:induction false} FindSourceAppend(a: seq<WalkEntry>, b: seq<WalkEntry>, name: string, date: Date)
    requires Valid(date)
    ensures FindSource(a + b, name, date) ==
      if FindSource(a, name, date).Some? then FindSource(a, name, date) else FindSource(b, name, date)
    decreases |a|
  {
    var stamp := Format(date);
    if |a| > 0 {
      assert (a + b)[0] == a[0] && (a + b)[1..] == a[1..] + b;
      if !Matches(a[0], name, stamp) {
        FindSourceAppend(a[1..], b, name, date);
        FirstMatchShift(a, name, stamp);
        FirstMatchShift(a + b, name, stamp);
      }
    } else {
      assert a + b == b;
    }
  }

  /** When the first entry does not match, the search continues on the rest. */
  lemma FirstMatchShift(walk: seq<WalkEntry>, name: string, stamp: string)
    requires |walk| > 0 && !Matches(walk[0], name, stamp)
    ensures FirstMatch(walk, name, stamp).Some? <==> FirstMatch(walk[1..], name, stamp).Some?
    ensures FirstMatch(walk, name, stamp).Some? ==>
      FirstMatch(walk, name, stamp).value == FirstMatch(walk[1..], name, stamp).value + 1
  {
  }
}
