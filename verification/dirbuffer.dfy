/** The two-file ping-pong buffer on disk. A file is the list of its closed gzip members; what has been
    written since the write file was opened is in a member still open. */
module DirBuffers {
  import opened Results

  datatype Name = Ping | Pong

  datatype Dir<T> = Dir(rName: Name, wName: Name, files: map<Name, seq<seq<T>>>,
                        reading: bool, writing: bool, open: seq<T>)

  /** A new buffer over a directory. */
  function NewDir<T>(files: map<Name, seq<seq<T>>>): Dir<T> {
    Dir(Ping, Pong, files, false, false, [])
  }

  /** The members of a file; a file that does not exist has size 0, like an empty one. */
  function Members<T>(d: Dir<T>, n: Name): seq<seq<T>> {
    if n in d.files then d.files[n] else []
  }

  function Flat<T>(members: seq<seq<T>>): seq<T> {
    if members == [] then [] else members[0] + Flat(members[1..])
  }

  /** Everything in the buffer: the read file, the write file, the open member. */
  function Content<T>(d: Dir<T>): seq<T> {
    Flat(Members(d, d.rName)) + (Flat(Members(d, d.wName)) + d.open)
  }

  /** What the read file holds. */
  function Older<T>(d: Dir<T>): seq<T> {
    Flat(Members(d, d.rName))
  }

  /** What the write file holds, with the open member. */
  function Newer<T>(d: Dir<T>): seq<T> {
    Flat(Members(d, d.wName)) + d.open
  }

  ghost predicate Distinct<T>(d: Dir<T>) {
    d.rName != d.wName && (!d.writing ==> d.open == []) && (d.writing ==> d.wName in d.files)
  }

  /** close: both handles; the open member is finished. */
  function Closed<T>(d: Dir<T>): Dir<T> {
    if d.writing then
      d.(reading := false, writing := false, open := [], files := d.files[d.wName := Members(d, d.wName) + [d.open]])
    else d.(reading := false)
  }

  /** Write, opening the write file when need be. */
  function Written<T>(d: Dir<T>, p: seq<T>): Dir<T> {
    if d.writing then d.(open := d.open + p)
    else d.(writing := true, open := p, files := d.files[d.wName := Members(d, d.wName)])
  }

  /** switchFiles. */
  function Switched<T>(d: Dir<T>): Dir<T> {
    var c := Closed(d);
    c.(rName := c.wName, wName := c.rName)
  }

  /** Reader up to its callback: the read file is opened, which fails when it does not exist. */
  function Opened<T>(d: Dir<T>): (Dir<T>, Option<Error>) {
    var s := Switched(d);
    if s.rName in s.files then (s.(reading := true), None) else (s, Some(NotExist))
  }

  /** Reader behind its callback: on success the read file is truncated. */
  function Finished<T>(d: Dir<T>, ok: bool): Dir<T> {
    if ok then d.(reading := false, files := d.files[d.rName := []]) else d.(reading := false)
  }

  /** HasData: two files with data are merged into the write file, behind what it holds; data in the read
      file alone makes the files change places. */
  function Checked<T>(d: Dir<T>): (Dir<T>, bool) {
    var c := Closed(d);
    var r, w := Members(c, c.rName), Members(c, c.wName);
    if r == [] && w == [] then (c, false)
    else if w != [] then
      if r == [] then (c, true)
      else (c.(files := c.files[c.wName := w + r + [[]]][c.rName := []]), true)
    else (c.(rName := c.wName, wName := c.rName), true)
  }

  lemma {:induction false} FlatConcat<T>(a: seq<seq<T>>, b: seq<seq<T>>)
    ensures Flat(a + b) == Flat(a) + Flat(b)
  {
    if a == [] {
      assert a + b == b;
    } else {
      assert (a + b)[1..] == a[1..] + b;
      FlatConcat(a[1..], b);
    }
  }

  lemma FlatAppend<T>(a: seq<seq<T>>, m: seq<T>)
    ensures Flat(a + [m]) == Flat(a) + m
  {
    FlatConcat(a, [m]);
    FlatOne(m);
  }

  lemma FlatOne<T>(m: seq<T>)
    ensures Flat([m]) == m
  {
    assert [m][1..] == [] && m + [] == m;
  }

  /** d holds in its read file what r says, and behind that what w says, all of it closed. */
  ghost predicate Holds<T>(d: Dir<T>, r: seq<T>, w: seq<T>) {
    && Distinct(d) && !d.writing
    && Flat(Members(d, d.rName)) == r && Flat(Members(d, d.wName)) == w
  }

  lemma HoldsContent<T>(d: Dir<T>, r: seq<T>, w: seq<T>)
    requires Holds(d, r, w)
    ensures Content(d) == r + w
  {
    assert w + [] == w;
  }

  /** Closing moves the open member into the write file and nothing else. */
  lemma ClosedKeeps<T>(d: Dir<T>)
    requires Distinct(d)
    ensures Holds(Closed(d), Flat(Members(d, d.rName)), Flat(Members(d, d.wName)) + d.open)
    ensures Closed(d).rName == d.rName && Closed(d).wName == d.wName
    ensures Members(Closed(d), d.rName) == Members(d, d.rName) && Content(Closed(d)) == Content(d)
  {
    FlatAppend(Members(d, d.wName), d.open);
    assert Flat(Members(d, d.wName)) + [] == Flat(Members(d, d.wName));
    HoldsContent(Closed(d), Flat(Members(d, d.rName)), Flat(Members(d, d.wName)) + d.open);
  }

  lemma WrittenKeeps<T>(d: Dir<T>, p: seq<T>)
    requires Distinct(d)
    ensures Distinct(Written(d, p)) && Content(Written(d, p)) == Content(d) + p
    ensures Written(d, p).rName == d.rName && Members(Written(d, p), d.rName) == Members(d, d.rName)
  {
  }

  /** The files change places, the write file closed. */
  lemma SwitchedKeeps<T>(d: Dir<T>)
    requires Distinct(d)
    ensures Holds(Switched(d), Flat(Members(d, d.wName)) + d.open, Flat(Members(d, d.rName)))
    ensures Members(Switched(d), Switched(d).wName) == Members(d, d.rName)
  {
    ClosedKeeps(d);
  }

  lemma FinishedKeeps<T>(d: Dir<T>, ok: bool)
    requires Distinct(d)
    ensures Distinct(Finished(d, ok))
    ensures ok ==> Flat(Members(d, d.rName)) + Content(Finished(d, ok)) == Content(d)
    ensures ok ==> Members(Finished(d, ok), d.rName) == []
    ensures !ok ==> Content(Finished(d, ok)) == Content(d)
  {
    if ok {
      var more := Flat(Members(d, d.wName)) + d.open;
      assert Flat(Members(d, d.rName)) + ([] + more) == Flat(Members(d, d.rName)) + more;
    }
  }

  /** HasData leaves everything in the write file, in the order write file before read file, and says
      whether a file had data. */
  lemma CheckedGathers<T>(d: Dir<T>)
    requires Distinct(d)
    ensures Holds(Checked(d).0, [], Flat(Members(d, d.wName)) + d.open + Flat(Members(d, d.rName)))
    ensures Members(Checked(d).0, Checked(d).0.rName) == []
    ensures Checked(d).1 <==> d.writing || Members(d, d.rName) != [] || Members(d, d.wName) != []
    ensures Checked(d).1 ==> Members(Checked(d).0, Checked(d).0.wName) != []
    ensures !Checked(d).1 ==> Content(d) == []
  {
    ClosedKeeps(d);
    var c := Closed(d);
    var r, w := Members(c, c.rName), Members(c, c.wName);
    if r != [] && w != [] {
      FlatConcat(w, r);
      FlatConcat(w + r, [[]]);
      var empty: seq<seq<T>> := [[]];
      assert Flat(empty) == [] by { assert empty[1..] == []; }
      assert Flat(w + r) + [] == Flat(w + r);
    } else if r == [] {
      assert Flat(w) + [] == Flat(w);
    } else {
      assert [] + Flat(r) == Flat(r);
    }
  }

  /** From any two files: HasData says whether either has data, and if so the next Reader finds its file,
      hands all of it to the callback and leaves nothing behind. */
  lemma RecoveryDelivers<T>(files: map<Name, seq<seq<T>>>)
    ensures var d := NewDir(files);
      var (c, ok) := Checked(d);
      && (!ok ==> Content(d) == [])
      && (ok ==> var (o, err) := Opened(c);
            && err == None && Content(Finished(o, true)) == []
            && Flat(Members(o, o.rName)) == Flat(Members(d, Pong)) + Flat(Members(d, Ping)))
  {
    var d := NewDir(files);
    CheckedGathers(d);
    var c := Checked(d).0;
    SwitchedKeeps(c);
    assert Flat(Members(d, Pong)) + [] == Flat(Members(d, Pong));
    if Checked(d).1 {
      var o := Opened(c).0;
      FinishedKeeps(o, true);
      assert Members(o, o.wName) == [];
    }
  }

  /** The buffer as a new instance finds it in the directory the old one has closed. */
  function Reopened<T>(d: Dir<T>): Dir<T> {
    Checked(NewDir(Closed(d).files)).0
  }

  /** A use of the buffer: writes, possibly while a reader's callback runs, readers whose callback succeeds
      or fails, and new starts over the same files. */
  datatype Op<T> = Put(p: seq<T>) | Begin | End(ok: bool) | Reopen

  datatype Use<T> = Use(dir: Dir<T>, inFlight: bool, written: seq<T>, delivered: seq<T>)

  function Do<T>(u: Use<T>, op: Op<T>): Use<T> {
    match op
    case Put(p) => u.(dir := Written(u.dir, p), written := u.written + p)
    case Begin =>
      if u.inFlight then u else
      var (d, err) := Opened(u.dir);
      u.(dir := d, inFlight := err == None)
    case End(ok) =>
      if !u.inFlight then u else
      u.(dir := Finished(u.dir, ok), inFlight := false,
         delivered := if ok then u.delivered + Flat(Members(u.dir, u.dir.rName)) else u.delivered)
    case Reopen =>
      if u.inFlight then u else u.(dir := Reopened(u.dir))
  }

  function DoAll<T>(u: Use<T>, ops: seq<Op<T>>): Use<T>
    decreases ops
  {
    if ops == [] then u else DoAll(Do(u, ops[0]), ops[1..])
  }

  function Unused<T>(): Use<T> {
    Use(NewDir(map[]), false, [], [])
  }

  ghost predicate NoFailure<T>(ops: seq<Op<T>>) {
    forall k :: 0 <= k < |ops| ==> ops[k] != End(false)
  }

  /** Nothing is lost and nothing doubled. */
  ghost predicate Conserves<T>(u: Use<T>) {
    Distinct(u.dir) && multiset(u.delivered) + multiset(Content(u.dir)) == multiset(u.written)
  }

  /** Everything delivered, then everything held, is everything written in order; between readers the
      read file is empty. */
  ghost predicate InOrder<T>(u: Use<T>) {
    && Distinct(u.dir) && u.delivered + Content(u.dir) == u.written
    && (!u.inFlight ==> Members(u.dir, u.dir.rName) == [])
  }

  lemma {:induction false} ReopenedKeeps<T>(d: Dir<T>)
    requires Distinct(d)
    ensures Distinct(Reopened(d)) && Members(Reopened(d), Reopened(d).rName) == []
    ensures multiset(Content(Reopened(d))) == multiset(Content(d))
    ensures Members(d, d.rName) == [] ==> Content(Reopened(d)) == Content(d)
  {
    hide Checked, Closed, Content, Flat;
    ClosedKeeps(d);
    var c := Closed(d);
    var ping, pong := Flat(Members(c, Ping)), Flat(Members(c, Pong));
    var n := NewDir(c.files);
    CheckedGathers(n);
    assert Members(n, Ping) == Members(c, Ping) && Members(n, Pong) == Members(c, Pong);
    assert pong + [] == pong;
    HoldsContent(Reopened(d), [], pong + ping);
    assert [] + (pong + ping) == pong + ping;
    if c.rName == Ping {
      HoldsContent(c, ping, pong);
      SameEitherWay(ping, pong);
    } else {
      HoldsContent(c, pong, ping);
    }
    if Members(d, d.rName) == [] {
      FlatNone<T>();
    }
  }

  lemma SameEitherWay<T>(a: seq<T>, b: seq<T>)
    ensures multiset(a + b) == multiset(b + a)
    ensures a == [] ==> a + b == b + a
  {
  }

  lemma {:induction false} OpenedKeeps<T>(d: Dir<T>)
    requires Distinct(d)
    ensures Distinct(Opened(d).0) && multiset(Content(Opened(d).0)) == multiset(Content(d))
    ensures Members(d, d.rName) == [] ==> Content(Opened(d).0) == Content(d)
    ensures Members(Opened(d).0, Opened(d).0.wName) == Members(d, d.rName)
    ensures Opened(d).1 != None ==> Members(Opened(d).0, Opened(d).0.rName) == []
  {
    var r, w := Flat(Members(d, d.rName)), Flat(Members(d, d.wName)) + d.open;
    assert Content(d) == r + w;
    hide Flat;
    SwitchedKeeps(d);
    HoldsContent(Switched(d), w, r);
    OpensSwitched(d);
    if Members(d, d.rName) == [] {
      FlatNone<T>();
    }
    SameEitherWay(r, w);
    hide Switched, Opened, Content;
  }

  /** Opening the read file changes no contents, and fails only without a file. */
  lemma OpensSwitched<T>(d: Dir<T>)
    requires Distinct(d)
    ensures Content(Opened(d).0) == Content(Switched(d)) && Distinct(Opened(d).0)
    ensures Members(Opened(d).0, Opened(d).0.wName) == Members(Switched(d), Switched(d).wName)
    ensures Opened(d).1 != None ==> Members(Opened(d).0, Opened(d).0.rName) == []
  {
    SwitchedKeeps(d);
    hide Switched, Flat;
  }

  lemma FlatNone<T>()
    ensures Flat<T>([]) == []
  {
  }

  lemma {:induction false} DoConserves<T>(u: Use<T>, op: Op<T>)
    requires Conserves(u)
    ensures Conserves(Do(u, op))
  {
    hide Written, Opened, Finished, Reopened, Content, Flat;
    match op
    case Put(p) =>
      WrittenKeeps(u.dir, p);
    case Begin =>
      OpenedKeeps(u.dir);
    case End(ok) =>
      FinishedKeeps(u.dir, ok);
    case Reopen =>
      ReopenedKeeps(u.dir);
  }

  lemma {:induction false} UseConserves<T>(u: Use<T>, ops: seq<Op<T>>)
    requires Conserves(u)
    ensures Conserves(DoAll(u, ops))
    decreases ops
  {
    if ops != [] {
      DoConserves(u, ops[0]);
      UseConserves(Do(u, ops[0]), ops[1..]);
    }
  }

  lemma DoInOrder<T>(u: Use<T>, op: Op<T>)
    requires InOrder(u) && op != End(false)
    ensures InOrder(Do(u, op))
  {
    hide Written, Opened, Reopened, Content, Flat;
    match op
    case Put(p) =>
      WrittenKeeps(u.dir, p);
      Regroup(u.delivered, Content(u.dir), p);
    case Begin =>
      OpenedKeeps(u.dir);
    case End(ok) =>
      FinishedKeeps(u.dir, true);
      Regroup(u.delivered, Flat(Members(u.dir, u.dir.rName)), Content(Finished(u.dir, true)));
    case Reopen =>
      ReopenedKeeps(u.dir);
  }

  lemma Regroup<T>(a: seq<T>, b: seq<T>, c: seq<T>)
    ensures (a + b) + c == a + (b + c)
  {
  }

  /** Without failing callbacks, what the callbacks were handed is a prefix of what was written. */
  lemma {:induction false} UseInOrder<T>(u: Use<T>, ops: seq<Op<T>>)
    requires InOrder(u) && NoFailure(ops)
    ensures InOrder(DoAll(u, ops))
    decreases ops
  {
    if ops != [] {
      DoInOrder(u, ops[0]);
      UseInOrder(Do(u, ops[0]), ops[1..]);
    }
  }

  /** Any use from an empty directory conserves what is written, and one without failing callbacks
      delivers it in order. */
  lemma BufferCorrect<T>(ops: seq<Op<T>>)
    ensures var u := DoAll(Unused(), ops);
      Conserves(u) && (NoFailure(ops) ==> u.delivered <= u.written)
  {
    UseConserves(Unused(), ops);
    if NoFailure(ops) {
      UseInOrder(Unused(), ops);
    }
  }

  /** A failed callback leaves the names exchanged, so what was written later is delivered first. */
  lemma FailureReorders<T>(a: T, b: T)
    ensures var u := DoAll(Unused(), [Put([a]), Begin, End(false)] + [Put([b]), Begin, End(true)]);
      u.delivered == [b] && u.written == [a, b] && Content(u.dir) == [a]
  {
    hide Flat;
    var d1 := Dir(Ping, Pong, map[Pong := []], false, true, [a]);
    var d2 := Dir(Pong, Ping, map[Pong := [[a]]], true, false, []);
    var d3 := d2.(reading := false);
    var d4 := Dir(Pong, Ping, map[Pong := [[a]], Ping := []], false, true, [b]);
    var d5 := Dir(Ping, Pong, map[Pong := [[a]], Ping := [[b]]], true, false, []);
    var d6 := Dir(Ping, Pong, map[Pong := [[a]], Ping := []], false, false, []);
    FlatOne([a]);
    FlatOne([b]);
    FlatNone<T>();
    assert Do(Unused(), Put([a])) == Use(d1, false, [a], []);
    var none: seq<seq<T>> := [];
    assert none + [[a]] == [[a]] && none + [[b]] == [[b]];
    assert Closed(d1).files == d2.files;
    assert Opened(d1) == (d2, None);
    assert Do(Use(d1, false, [a], []), Begin) == Use(d2, true, [a], []);
    assert Do(Use(d2, true, [a], []), End(false)) == Use(d3, false, [a], []);
    DoThree(Unused(), Put([a]), Begin, End(false), [Put([b]), Begin, End(true)]);
    assert Do(Use(d3, false, [a], []), Put([b])) == Use(d4, false, [a, b], []);
    assert Closed(d4).files == d5.files;
    assert Opened(d4) == (d5, None);
    assert Do(Use(d4, false, [a, b], []), Begin) == Use(d5, true, [a, b], []);
    assert Do(Use(d5, true, [a, b], []), End(true)) == Use(d6, false, [a, b], [b]);
    DoThree(Use(d3, false, [a], []), Put([b]), Begin, End(true), []);
    assert [Put([b]), Begin, End(true)] + [] == [Put([b]), Begin, End(true)];
  }

  lemma DoThree<T>(u: Use<T>, a: Op<T>, b: Op<T>, c: Op<T>, more: seq<Op<T>>)
    ensures DoAll(u, [a, b, c] + more) == DoAll(Do(Do(Do(u, a), b), c), more)
  {
    hide Do;
    var u1 := Do(u, a);
    var u2 := Do(u1, b);
    DoFirst(u, a, [b, c] + more);
    DoFirst(u1, b, [c] + more);
    DoFirst(u2, c, more);
    assert [a] + ([b, c] + more) == [a, b, c] + more && [b] + ([c] + more) == [b, c] + more;
  }

  lemma DoFirst<T>(u: Use<T>, op: Op<T>, more: seq<Op<T>>)
    ensures DoAll(u, [op] + more) == DoAll(Do(u, op), more)
  {
    assert ([op] + more)[1..] == more;
  }

  function WrittenAll<T>(d: Dir<T>, ps: seq<seq<T>>): Dir<T>
    decreases |ps|
  {
    if ps == [] then d else Written(WrittenAll(d, ps[..|ps| - 1]), ps[|ps| - 1])
  }

  /** Two writes without anything in between are one write of both. */
  lemma WrittenTwice<T>(d: Dir<T>, p: seq<T>, q: seq<T>)
    ensures Written(Written(d, p), q) == Written(d, p + q)
  {
    Regroup(d.open, p, q);
  }

  /** fallback.DirBuffer. The operations of the file system succeed, but for opening a read file that does
      not exist. */
  class DirBuffer<T(==)> {
    var rName: Name
    var wName: Name
    var files: map<Name, seq<seq<T>>>
    var reading: bool
    var writing: bool
    var open: seq<T>

    function View(): Dir<T>
      reads this
    {
      Dir(rName, wName, files, reading, writing, open)
    }

    constructor (files: map<Name, seq<seq<T>>>)
      ensures View() == NewDir(files) && Distinct(View())
    {
      rName, wName := Ping, Pong;
      this.files := files;
      reading, writing, open := false, false, [];
    }

    method EnsureReadFile() returns (err: Option<Error>)
      modifies this`reading
      ensures err == (if !old(reading) && rName !in files then Some(NotExist) else None)
      ensures reading == (old(reading) || err == None)
    {
      if reading {
        return None;
      }
      if rName !in files {
        return Some(NotExist);
      }
      reading := true;
      err := None;
    }

    method InitWriteFile()
      modifies this`files, this`writing, this`open
      ensures writing && open == [] && files == old(files)[wName := Members(old(View()), wName)]
    {
      if wName !in files {
        files := files[wName := []];
      }
      writing, open := true, [];
    }

    method CloseWriteFile()
      modifies this`files, this`writing, this`open
      ensures View() == Closed(old(View())).(reading := reading)
    {
      if writing {
        var members := if wName in files then files[wName] else [];
        files := files[wName := members + [open]];
        writing, open := false, [];
      }
    }

    method CloseFiles()
      modifies this`files, this`reading, this`writing, this`open
      ensures View() == Closed(old(View()))
    {
      reading := false;
      CloseWriteFile();
    }

    /** Also Close. */
    method Close()
      requires Distinct(View())
      modifies this`files, this`reading, this`writing, this`open
      ensures View() == Closed(old(View())) && Distinct(View())
      ensures Content(View()) == Content(old(View()))
    {
      ClosedKeeps(View());
      CloseFiles();
    }

    method Write(p: seq<T>)
      requires Distinct(View())
      modifies this`files, this`writing, this`open
      ensures View() == Written(old(View()), p) && Distinct(View())
      ensures Content(View()) == Content(old(View())) + p
    {
      WrittenKeeps(View(), p);
      if !writing {
        InitWriteFile();
      }
      open := open + p;
    }

    method FileSize(name: Name) returns (members: nat)
      ensures members == |Members(View(), name)|
    {
      members := if name in files then |files[name]| else 0;
    }

    method HasData() returns (ok: bool)
      requires Distinct(View())
      modifies this
      ensures (View(), ok) == Checked(old(View())) && Distinct(View())
      ensures multiset(Content(View())) == multiset(Content(old(View())))
    {
      hide Content, Flat;
      ghost var was := View();
      GathersAll(was);
      CloseFiles();
      ghost var c := View();
      var rSize := FileSize(rName);
      var wSize := FileSize(wName);
      if rSize == 0 && wSize == 0 {
        return false;
      }
      if wSize > 0 {
        if rSize == 0 {
          return true;
        }
        reading := true;
        InitWriteFile();
        ghost var both := Members(c, wName) + Members(c, rName);
        files := files[wName := files[wName] + files[rName]];
        assert files == c.files[wName := both];
        files := files[rName := []];
        CloseFiles();
        MergedFiles(c.files, wName, rName, both);
        return true;
      }
      rName, wName := wName, rName;
      ok := true;
    }

    method SwitchFiles()
      modifies this
      ensures View() == Switched(old(View()))
    {
      CloseFiles();
      rName, wName := wName, rName;
    }

    /** The writes others make while a file is being read. */
    method WriteAll(during: seq<seq<T>>)
      requires Distinct(View())
      modifies this`files, this`writing, this`open
      ensures Distinct(View()) && View() == WrittenAll(old(View()), during)
      ensures Members(View(), rName) == Members(old(View()), rName) && (rName in old(files) ==> rName in files)
    {
      ghost var d := View();
      for k := 0 to |during|
        invariant Distinct(View()) && View() == WrittenAll(d, during[..k])
        invariant Members(View(), rName) == Members(d, rName) && (rName in d.files ==> rName in files)
      {
        assert during[..k + 1][..k] == during[..k];
        Write(during[k]);
      }
      assert during[..|during|] == during;
    }

    /** Reader. While the callback reads its file, others make the writes of `during`; then the callback
        returns without an error if ok. */
    method Reader(during: seq<seq<T>>, ok: bool) returns (err: Option<Error>, handed: seq<seq<T>>)
      requires Distinct(View())
      modifies this
      ensures Distinct(View())
      ensures Opened(old(View())).1 == None ==>
                View() == Finished(WrittenAll(Opened(old(View())).0, during), ok)
                && handed == Members(Opened(old(View())).0, old(wName))
                && err == (if ok then None else Some(WriteFailed))
      ensures Opened(old(View())).1 != None ==>
                View() == Opened(old(View())).0 && handed == [] && err == Some(NotExist)
      ensures err == None ==> Flat(handed) == Flat(Members(old(View()), old(wName))) + old(open)
    {
      SwitchedKeeps(View());
      hide Flat, Content, WrittenAll;
      SwitchFiles();
      handed := [];
      err := EnsureReadFile();
      if err != None {
        return;
      }
      handed := files[rName];
      WriteAll(during);
      FinishedKeeps(View(), ok);
      if ok {
        files := files[rName := []];
      } else {
        err := Some(WriteFailed);
      }
      reading := false;
    }
  }

  lemma MergedFiles<T>(files: map<Name, seq<seq<T>>>, w: Name, r: Name, both: seq<seq<T>>)
    requires w != r
    ensures var merged := files[w := both][r := []];
      merged[w := merged[w] + [[]]] == files[w := both + [[]]][r := []]
  {
  }

  lemma GathersAll<T>(d: Dir<T>)
    requires Distinct(d)
    ensures Distinct(Checked(d).0) && multiset(Content(Checked(d).0)) == multiset(Content(d))
  {
    CheckedGathers(d);
    var w, r := Flat(Members(d, d.wName)) + d.open, Flat(Members(d, d.rName));
    HoldsContent(Checked(d).0, [], w + r);
    assert [] + (w + r) == w + r;
  }
}
