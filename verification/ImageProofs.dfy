/**
 Over all runs, with a failure possible at any operation and any number of retries: no file is
 ever lost between temporary and permanent storage, and no registration names a missing object.
 */
module ImageProofs {
  import opened Bytes
  import opened FileNames
  import opened Images
  import opened Text
  import opened Wrappers

  predicate Temporary(key: string) {
    "temp/" <= key
  }

  // ----- what a job's list of operations looks like -----

  /** A copy keeps the base name and lands outside `temp/`; a delete follows the copy of its object. */
  predicate PlannedAt(ops: seq<Op>, i: nat)
    requires i < |ops|
  {
    match ops[i]
    case Copy(source, key) => BaseName(source) == BaseName(key) && !Temporary(key)
    case Delete(key) => i > 0 && ops[i - 1].Copy? && ops[i - 1].source == key && Temporary(key)
    case Send(_) => true
  }

  predicate Planned(ops: seq<Op>) {
    forall i :: 0 <= i < |ops| ==> PlannedAt(ops, i)
  }

  lemma PlannedAppend(a: seq<Op>, b: seq<Op>)
    requires Planned(a) && Planned(b)
    ensures Planned(a + b)
  {
    forall i | 0 <= i < |a + b| ensures PlannedAt(a + b, i) {
      if i < |a| {
        assert PlannedAt(a, i);
      } else {
        assert PlannedAt(b, i - |a|);
      }
    }
  }

  /** No directory of permanent storage is below `temp/`. */
  predicate Permanent(directory: string) {
    directory != "" && directory[0] != 't'
  }

  lemma PermanentKey(directory: string, name: string)
    requires Permanent(directory)
    ensures !Temporary(directory + "/" + name)
  {
    assert (directory + "/" + name)[0] == directory[0];
  }

  lemma MovePlanned(fileName: string, directory: string)
    requires Permanent(directory)
    ensures Planned(Move(fileName, directory))
  {
    var name := BaseName(fileName);
    PermanentKey(directory, name);
    BaseNameAfterSlash(directory, name);
    BaseNameAfterSlash(TEMP, name);
    assert TempKey(name)[..5] == "temp/";
  }

  lemma {:induction false} MoveAllPlanned(fileNames: seq<string>, directory: string)
    requires Permanent(directory)
    ensures Planned(MoveAll(fileNames, directory))
    decreases |fileNames|
  {
    if fileNames == [] {
    } else {
      var last := |fileNames| - 1;
      MoveAllPlanned(fileNames[..last], directory);
      MovePlanned(fileNames[last], directory);
      PlannedAppend(MoveAll(fileNames[..last], directory), Move(fileNames[last], directory));
    }
  }

  lemma JobPlanned(c: Config, job: Job)
    ensures Planned(OpsOf(c, job))
  {
    match job {
      case PetImages(did, nose, profiles, _, _) =>
        var directory := "nose-print-photo/" + did;
        assert directory[0] == 'n';
        MovePlanned(nose, directory);
        MoveAllPlanned(profiles, "pet");
        PlannedAppend(Move(nose, directory), MoveAll(profiles, "pet"));
      case GuardianImage(_, profile, _, _) => MovePlanned(profile, "guardian");
      case PostImages(target, body) => MoveAllPlanned(NamesIn(ImagesOf(body)), FolderKey(target));
    }
    PlannedAppend(Moves(job), [Send(Outcome(c, job))]);
  }

  // ----- conservation -----

  predicate Somewhere(objects: map<string, seq<byte>>, name: string) {
    exists key :: key in objects && BaseName(key) == name
  }

  /** Every object holds the content uploaded under its base name. */
  predicate Authentic(w: World) {
    forall key :: key in w.storage.objects ==>
      BaseName(key) in w.uploads && w.storage.objects[key] == w.uploads[BaseName(key)]
  }

  predicate Present(w: World) {
    forall name :: name in w.uploads ==> Somewhere(w.storage.objects, name)
  }

  /** What an attempt has copied is in place. */
  predicate AttemptOk(objects: map<string, seq<byte>>, a: Attempt) {
    && Planned(a.ops) && a.next <= |a.ops|
    && forall i :: 0 <= i < a.next && a.ops[i].Copy? ==> a.ops[i].key in objects
  }

  predicate AttemptsOk(w: World) {
    forall id :: id in w.attempts ==> AttemptOk(w.storage.objects, w.attempts[id])
  }

  predicate Conserved(w: World) {
    Authentic(w) && Present(w) && AttemptsOk(w)
  }

  /** Objects outside `temp/` are never removed. */
  predicate Persist(objects: map<string, seq<byte>>, objects': map<string, seq<byte>>) {
    forall key :: key in objects && !Temporary(key) ==> key in objects'
  }

  lemma PersistKeepsAttempt(objects: map<string, seq<byte>>, objects': map<string, seq<byte>>, a: Attempt)
    requires AttemptOk(objects, a) && Persist(objects, objects')
    ensures AttemptOk(objects', a)
  {
    forall i | 0 <= i < a.next && a.ops[i].Copy? ensures a.ops[i].key in objects' {
      assert PlannedAt(a.ops, i);
    }
  }

  lemma UploadConserves(c: Config, w: World, name: string, content: seq<byte>)
    requires Conserved(w) && Legal(w, Upload(name, content))
    ensures var w' := Next(c, w, Upload(name, content));
      Conserved(w') && Persist(w.storage.objects, w'.storage.objects)
  {
    var w' := Next(c, w, Upload(name, content));
    BaseNameAfterSlash(TEMP, name);
    assert BaseName(TempKey(name)) == name;
    forall n | n in w'.uploads ensures Somewhere(w'.storage.objects, n) {
      if n == name {
        assert TempKey(name) in w'.storage.objects;
      } else {
        var key :| key in w.storage.objects && BaseName(key) == n;
        assert key in w'.storage.objects;
      }
    }
    forall id | id in w'.attempts ensures AttemptOk(w'.storage.objects, w'.attempts[id]) {
      PersistKeepsAttempt(w.storage.objects, w'.storage.objects, w.attempts[id]);
    }
  }

  lemma ApplyKeepsPresent(w: World, a: Attempt, s: Storage, name: string)
    requires AttemptOk(w.storage.objects, a) && a.next < |a.ops| && Somewhere(w.storage.objects, name)
    requires Apply(w.storage, a.ops[a.next]) == Some(s)
    ensures Somewhere(s.objects, name)
  {
    assert PlannedAt(a.ops, a.next);
    var key :| key in w.storage.objects && BaseName(key) == name;
    if key in s.objects {
    } else {
      var copy := a.ops[a.next - 1];
      assert PlannedAt(a.ops, a.next - 1);
      assert copy.key in s.objects && BaseName(copy.key) == name;
    }
  }

  lemma ApplyConserves(w: World, a: Attempt, s: Storage)
    requires Authentic(w) && Present(w) && AttemptOk(w.storage.objects, a) && a.next < |a.ops|
    requires Apply(w.storage, a.ops[a.next]) == Some(s)
    ensures Authentic(w.(storage := s)) && Present(w.(storage := s))
    ensures Persist(w.storage.objects, s.objects)
    ensures AttemptOk(s.objects, a.(next := a.next + 1))
  {
    assert PlannedAt(a.ops, a.next);
    PersistKeepsAttempt(w.storage.objects, s.objects, a);
    forall name | name in w.uploads ensures Somewhere(s.objects, name) {
      ApplyKeepsPresent(w, a, s, name);
    }
  }

  lemma DoConserves(c: Config, w: World, id: nat)
    requires Conserved(w)
    ensures var w' := Next(c, w, Do(id));
      Conserved(w') && Persist(w.storage.objects, w'.storage.objects)
  {
    var w' := Next(c, w, Do(id));
    if id in w.attempts && w.attempts[id].next < |w.attempts[id].ops| {
      var a := w.attempts[id];
      assert AttemptOk(w.storage.objects, a);
      var applied := Apply(w.storage, a.ops[a.next]);
      if applied.Some? {
        ApplyConserves(w, a, applied.value);
        forall other | other in w'.attempts ensures AttemptOk(w'.storage.objects, w'.attempts[other]) {
          if other != id {
            PersistKeepsAttempt(w.storage.objects, w'.storage.objects, w.attempts[other]);
          }
        }
      }
    }
  }

  lemma StepConserves(c: Config, w: World, step: Step)
    requires Conserved(w) && Legal(w, step)
    ensures var w' := Next(c, w, step);
      Conserved(w') && Persist(w.storage.objects, w'.storage.objects)
  {
    match step
    case Upload(name, content) => UploadConserves(c, w, name, content);
    case Begin(id, job) => JobPlanned(c, job);
    case Do(id) => DoConserves(c, w, id);
    case Crash(id) =>
  }

  const EMPTY := World(Storage(map[], []), map[], map[])

  lemma {:induction false} RunConserves(c: Config, w: World, steps: seq<Step>)
    requires Conserved(w) && LegalRun(c, w, steps)
    ensures Conserved(Run(c, w, steps))
    decreases |steps|
  {
    if steps == [] {
    } else {
      StepConserves(c, w, steps[0]);
      RunConserves(c, Next(c, w, steps[0]), steps[1..]);
    }
  }

  /**
   In every reachable state every uploaded file is somewhere, under its own name, and every
   object holds exactly the bytes uploaded under its name.
   */
  lemma NoFileIsLost(c: Config, steps: seq<Step>, name: string)
    requires LegalRun(c, EMPTY, steps) && name in Run(c, EMPTY, steps).uploads
    ensures var w := Run(c, EMPTY, steps);
      && (exists key :: key in w.storage.objects && BaseName(key) == name)
      && (forall key :: key in w.storage.objects && BaseName(key) == name ==>
            w.storage.objects[key] == w.uploads[name])
  {
    RunConserves(c, EMPTY, steps);
    assert Somewhere(Run(c, EMPTY, steps).storage.objects, name);
  }

  // ----- referential integrity -----

  function UrlList(images: string): seq<string> {
    if Trim(images) == "" then [] else Split(images, ",")
  }

  /** The URLs of a registration, as the back end reads them. */
  function UrlsOf(r: Registration): seq<string> {
    match r
    case PetRegistration(_, _, data) => if "images" in data then UrlList(data["images"]) else []
    case UserRegistration(_, data) => if "profileUrl" in data then [data["profileUrl"]] else []
    case AdminRegistration(_, data) => if "profileUrl" in data then [data["profileUrl"]] else []
    case Post(_, _, body) => UrlList(ImagesOf(body))
  }

  predicate HasObject(c: Config, objects: map<string, seq<byte>>, url: string) {
    exists key :: key in objects && !Temporary(key) && Url(c, key) == url
  }

  predicate Copied(c: Config, ops: seq<Op>, n: nat, url: string)
    requires n <= |ops|
  {
    exists i :: 0 <= i < n && ops[i].Copy? && Url(c, ops[i].key) == url
  }

  /** Every URL sent was the target of an earlier copy of the same attempt. */
  predicate SendsCopied(c: Config, ops: seq<Op>) {
    forall i :: 0 <= i < |ops| && ops[i].Send? ==>
      forall url :: url in UrlsOf(ops[i].registration) ==> Copied(c, ops, i, url)
  }

  predicate Intact(c: Config, s: Storage) {
    forall r :: r in s.sent ==> forall url :: url in UrlsOf(r) ==> HasObject(c, s.objects, url)
  }

  predicate AllSendCopied(c: Config, w: World) {
    forall id :: id in w.attempts ==> SendsCopied(c, w.attempts[id].ops)
  }

  predicate CommaFree(c: Config) {
    ',' !in c.endpoint && ',' !in c.bucket
  }

  /** The names in a job hold no slash and no comma. */
  predicate PlainNames(job: Job) {
    match job
    case PetImages(_, _, profiles, _, _) => forall n :: n in profiles ==> '/' !in n && ',' !in n
    case GuardianImage(_, profile, _, _) => '/' !in profile
    case PostImages(_, _) => true
  }

  /** The controllers queue only such names, whatever the client sent. */
  lemma ControllersQueuePlainNames(did: string, nose: string, images: string, profileUrl: string,
                                   guardian: string, data: map<string, string>, role: string)
    ensures PlainNames(PetImages(did, BaseName(nose), BaseNames(NamesIn(images)), guardian, data))
    ensures PlainNames(GuardianImage(guardian, BaseName(profileUrl), data, role))
  {
    NamesLackComma(images);
    forall n | n in BaseNames(NamesIn(images)) ensures '/' !in n && ',' !in n {
      var i :| 0 <= i < |NamesIn(images)| && BaseName(NamesIn(images)[i]) == n;
      BaseNameKeepsAbsence(NamesIn(images)[i], ',');
    }
  }

  lemma BaseNameWhole(name: string)
    requires '/' !in name
    ensures BaseName(name) == name
  {
  }

  /** The image key in a URL is the key that was stored exactly when the name in the job holds no slash. */
  lemma UrlNamesStoredKeyIff(c: Config, directory: string, name: string)
    ensures Url(c, directory + "/" + name) == Url(c, Move(name, directory)[0].key) <==> '/' !in name
  {
    var prefix := c.endpoint + "/" + c.bucket + "/" + directory + "/";
    assert Url(c, directory + "/" + name) == prefix + name;
    assert Url(c, Move(name, directory)[0].key) == prefix + BaseName(name);
    assert (prefix + name)[|prefix|..] == name && (prefix + BaseName(name))[|prefix|..] == BaseName(name);
  }

  lemma {:induction false} MoveAllCopies(fileNames: seq<string>, directory: string, i: nat)
    requires i < |fileNames|
    ensures MoveAll(fileNames, directory)[2 * i] == Copy(TempKey(BaseName(fileNames[i])),
                                                         directory + "/" + BaseName(fileNames[i]))
    decreases |fileNames|
  {
    if i == |fileNames| - 1 {
    } else {
      MoveAllCopies(fileNames[..|fileNames| - 1], directory, i);
    }
  }

  lemma UrlsLackComma(c: Config, keys: seq<string>)
    requires CommaFree(c) && forall k :: k in keys ==> ',' !in k
    ensures forall u :: u in Urls(c, keys) ==> ',' !in u
  {
  }

  lemma JoinHead(parts: seq<string>, sep: string)
    requires parts != []
    ensures parts[0] <= Join(parts, sep)
  {
    if |parts| > 1 {
      assert Join(parts, sep) == parts[0] + (sep + Join(parts[1..], sep));
    }
  }

  /** A character that is no white space survives trimming. */
  lemma SolidSurvivesTrim(s: string, c: char)
    requires c in s && !IsSpace(c)
    ensures c in Trim(s)
  {
    TrimStartKeeps(s, c);
    TrimEndKeeps(TrimStart(s), c);
  }

  lemma {:induction false} TrimStartKeeps(s: string, c: char)
    requires c in s && !IsSpace(c)
    ensures c in TrimStart(s)
  {
    if !IsSpace(s[0]) {
    } else {
      assert s == [s[0]] + s[1..];
      TrimStartKeeps(s[1..], c);
    }
  }

  lemma {:induction false} TrimEndKeeps(s: string, c: char)
    requires c in s && !IsSpace(c)
    ensures c in TrimEnd(s)
  {
    if !IsSpace(s[|s| - 1]) {
    } else {
      assert s == s[..|s| - 1] + [s[|s| - 1]];
      TrimEndKeeps(s[..|s| - 1], c);
    }
  }

  /** The joined list is read back as the URLs, in order. */
  lemma ListIsReadBack(c: Config, keys: seq<string>)
    requires CommaFree(c) && forall k :: k in keys ==> ',' !in k
    ensures UrlList(Join(Urls(c, keys), ",")) == Urls(c, keys)
  {
    if keys == [] {
    } else {
      UrlsLackComma(c, keys);
      SplitUndoesJoin(Urls(c, keys), ',');
      var joined := Join(Urls(c, keys), ",");
      JoinHead(Urls(c, keys), ",");
      assert joined[|c.endpoint|] == '/';
      SolidSurvivesTrim(joined, '/');
    }
  }

  lemma {:induction false} MoveAllSendsNothing(fileNames: seq<string>, directory: string)
    ensures forall op :: op in MoveAll(fileNames, directory) ==> !op.Send?
    decreases |fileNames|
  {
    if fileNames == [] {
    } else {
      MoveAllSendsNothing(fileNames[..|fileNames| - 1], directory);
    }
  }

  lemma JobMovesSendNothing(job: Job)
    ensures forall op :: op in Moves(job) ==> !op.Send?
  {
    match job
    case PetImages(_, _, profiles, _, _) => MoveAllSendsNothing(profiles, "pet");
    case GuardianImage(_, _, _, _) =>
    case PostImages(target, body) => MoveAllSendsNothing(NamesIn(ImagesOf(body)), FolderKey(target));
  }

  /** The list of URLs for moved files names copies of `before + MoveAll(names, directory)` only. */
  lemma ListIsCopied(c: Config, before: seq<Op>, names: seq<string>, directory: string)
    requires CommaFree(c) && ',' !in directory && forall n :: n in names ==> ',' !in n
    ensures var ops := before + MoveAll(names, directory);
      forall url :: url in UrlList(Join(Urls(c, JobKeys(BaseNames(names), directory)), ",")) ==>
        Copied(c, ops, |ops|, url)
  {
    var ops := before + MoveAll(names, directory);
    var keys := JobKeys(BaseNames(names), directory);
    forall k | k in keys ensures ',' !in k {
      var i :| 0 <= i < |names| && keys[i] == k;
      BaseNameKeepsAbsence(names[i], ',');
    }
    ListIsReadBack(c, keys);
    forall url | url in Urls(c, keys) ensures Copied(c, ops, |ops|, url) {
      var i :| 0 <= i < |names| && Urls(c, keys)[i] == url;
      MoveAllCopies(names, directory, i);
      assert ops[|before| + 2 * i] == MoveAll(names, directory)[2 * i];
    }
  }

  lemma BaseNamesOfPlain(names: seq<string>)
    requires forall n :: n in names ==> '/' !in n
    ensures BaseNames(names) == names
  {
    forall i | 0 <= i < |names| ensures BaseName(names[i]) == names[i] {
      BaseNameWhole(names[i]);
    }
  }

  lemma PetOutcomeIsCopied(c: Config, job: Job)
    requires CommaFree(c) && PlainNames(job) && job.PetImages?
    ensures forall url :: url in UrlsOf(Outcome(c, job)) ==> Copied(c, Moves(job), |Moves(job)|, url)
  {
    BaseNamesOfPlain(job.profiles);
    ListIsCopied(c, Move(job.nose, "nose-print-photo/" + job.petDid), job.profiles, "pet");
  }

  lemma UrlsOfPost(c: Config, target: Target, body: map<string, string>)
    ensures UrlsOf(Outcome(c, PostImages(target, body)))
            == if Trim(ImagesOf(body)) == "" then [] else UrlList(PostedImages(c, target, ImagesOf(body)))
  {
    var posted := PostedBody(c, target, body);
    assert ImagesOf(SpringBody(target, posted)) == ImagesOf(posted);
  }

  lemma PostOutcomeIsCopied(c: Config, target: Target, body: map<string, string>)
    requires CommaFree(c)
    ensures var moves := Moves(PostImages(target, body));
      forall url :: url in UrlsOf(Outcome(c, PostImages(target, body))) ==> Copied(c, moves, |moves|, url)
  {
    var names := NamesIn(ImagesOf(body));
    UrlsOfPost(c, target, body);
    NamesLackComma(ImagesOf(body));
    ListIsCopied(c, [], names, FolderKey(target));
    assert [] + MoveAll(names, FolderKey(target)) == MoveAll(names, FolderKey(target));
  }

  lemma OutcomeIsCopied(c: Config, job: Job)
    requires CommaFree(c) && PlainNames(job)
    ensures forall url :: url in UrlsOf(Outcome(c, job)) ==> Copied(c, Moves(job), |Moves(job)|, url)
  {
    match job
    case PetImages(_, _, _, _, _) => PetOutcomeIsCopied(c, job);
    case GuardianImage(_, profile, _, _) =>
      BaseNameWhole(profile);
      assert "guardian/" + profile == "guardian" + "/" + profile;
      assert Moves(job)[0] == Copy(TempKey(profile), "guardian" + "/" + profile);
    case PostImages(target, body) => PostOutcomeIsCopied(c, target, body);
  }

  lemma JobSendsCopied(c: Config, job: Job)
    requires CommaFree(c) && PlainNames(job)
    ensures SendsCopied(c, OpsOf(c, job))
  {
    var ops := OpsOf(c, job);
    JobMovesSendNothing(job);
    OutcomeIsCopied(c, job);
    forall i, url | 0 <= i < |ops| && ops[i].Send? && url in UrlsOf(ops[i].registration)
      ensures Copied(c, ops, i, url)
    {
      assert i == |Moves(job)|;
      var j :| 0 <= j < i && Moves(job)[j].Copy? && Url(c, Moves(job)[j].key) == url;
      assert ops[j] == Moves(job)[j];
    }
  }

  lemma PersistKeepsIntact(c: Config, s: Storage, s': Storage)
    requires Intact(c, s) && Persist(s.objects, s'.objects) && s'.sent == s.sent
    ensures Intact(c, s')
  {
    forall r, url | r in s'.sent && url in UrlsOf(r) ensures HasObject(c, s'.objects, url) {
      var key :| key in s.objects && !Temporary(key) && Url(c, key) == url;
      assert key in s'.objects;
    }
  }

  /** A registration goes out only after its images are in place. */
  lemma SendIsIntact(c: Config, s: Storage, a: Attempt, r: Registration)
    requires Intact(c, s) && AttemptOk(s.objects, a) && SendsCopied(c, a.ops)
    requires a.next < |a.ops| && a.ops[a.next] == Send(r)
    ensures Intact(c, s.(sent := s.sent + [r]))
  {
    forall url | url in UrlsOf(r) ensures HasObject(c, s.objects, url) {
      assert Copied(c, a.ops, a.next, url);
      var i :| 0 <= i < a.next && a.ops[i].Copy? && Url(c, a.ops[i].key) == url;
      assert PlannedAt(a.ops, i);
      assert a.ops[i].key in s.objects;
    }
  }

  /** Only an attempt that has reached its last operation sends. */
  lemma StepSends(c: Config, w: World, step: Step)
    ensures var w' := Next(c, w, step);
      w'.storage.sent == w.storage.sent
      || (step.Do? && step.id in w.attempts && w.attempts[step.id].next < |w.attempts[step.id].ops|
          && w.attempts[step.id].ops[w.attempts[step.id].next].Send?
          && w'.storage == w.storage.(sent := w.storage.sent
                                              + [w.attempts[step.id].ops[w.attempts[step.id].next].registration]))
  {
  }

  lemma StepKeepsIntact(c: Config, w: World, step: Step)
    requires Conserved(w) && Legal(w, step) && Intact(c, w.storage) && AllSendCopied(c, w)
    ensures Intact(c, Next(c, w, step).storage)
  {
    StepConserves(c, w, step);
    StepSends(c, w, step);
    if Next(c, w, step).storage.sent == w.storage.sent {
      PersistKeepsIntact(c, w.storage, Next(c, w, step).storage);
    } else {
      var a := w.attempts[step.id];
      SendIsIntact(c, w.storage, a, a.ops[a.next].registration);
    }
  }

  lemma StepKeepsSendCopied(c: Config, w: World, step: Step)
    requires CommaFree(c) && AllSendCopied(c, w) && (step.Begin? ==> PlainNames(step.job))
    ensures AllSendCopied(c, Next(c, w, step))
  {
    if step.Begin? {
      JobSendsCopied(c, step.job);
    }
  }

  ghost predicate PlainJobs(steps: seq<Step>) {
    forall step :: step in steps && step.Begin? ==> PlainNames(step.job)
  }

  lemma {:induction false} RunKeepsIntact(c: Config, w: World, steps: seq<Step>)
    requires CommaFree(c) && Conserved(w) && Intact(c, w.storage) && AllSendCopied(c, w)
    requires LegalRun(c, w, steps) && PlainJobs(steps)
    ensures Intact(c, Run(c, w, steps).storage)
    decreases |steps|
  {
    if steps == [] {
    } else {
      StepConserves(c, w, steps[0]);
      StepKeepsIntact(c, w, steps[0]);
      StepKeepsSendCopied(c, w, steps[0]);
      RunKeepsIntact(c, Next(c, w, steps[0]), steps[1..]);
    }
  }

  /** Every URL that was ever sent on names an object of permanent storage, in every reachable state. */
  lemma SentUrlsExist(c: Config, steps: seq<Step>, r: Registration, url: string)
    requires CommaFree(c) && LegalRun(c, EMPTY, steps) && PlainJobs(steps)
    requires r in Run(c, EMPTY, steps).storage.sent && url in UrlsOf(r)
    ensures exists key :: key in Run(c, EMPTY, steps).storage.objects && !Temporary(key) && Url(c, key) == url
  {
    RunKeepsIntact(c, EMPTY, steps);
    assert HasObject(c, Run(c, EMPTY, steps).storage.objects, url);
  }

  /**
   What a post sends splits back into one URL per non-blank name, in order, each naming the key
   its file was stored under.
   */
  lemma PostedListSplitsBack(c: Config, target: Target, images: string)
    requires CommaFree(c) && NamesIn(images) != []
    ensures var urls := Split(PostedImages(c, target, images), ",");
      && |urls| == |NamesIn(images)|
      && forall i :: 0 <= i < |urls| ==> urls[i] == Url(c, Move(NamesIn(images)[i], FolderKey(target))[0].key)
  {
    var keys := JobKeys(BaseNames(NamesIn(images)), FolderKey(target));
    NamesLackComma(images);
    forall k | k in keys ensures ',' !in k {
      var i :| 0 <= i < |keys| && keys[i] == k;
      BaseNameKeepsAbsence(NamesIn(images)[i], ',');
    }
    NonBlankListNotBlank(images);
    UrlsLackComma(c, keys);
    SplitUndoesJoin(Urls(c, keys), ',');
  }

  lemma NonBlankListNotBlank(images: string)
    requires NamesIn(images) != []
    ensures Trim(images) != ""
  {
    if Trim(images) == "" {
      if ',' in images {
        SolidSurvivesTrim(images, ',');
      }
      SplitWhole(images, ',');
    }
  }

  // ----- what a retry can still do -----

  lemma {:induction false} PerformAppend(s: Storage, a: seq<Op>, b: seq<Op>, budget: nat)
    ensures var (s1, done) := Perform(s, a, budget);
      && (done ==> budget >= |a| && Perform(s, a + b, budget) == Perform(s1, b, budget - |a|))
      && (!done ==> Perform(s, a + b, budget) == (s1, false))
    decreases |a|
  {
    if a == [] {
      assert a + b == b;
    } else {
      assert (a + b)[1..] == a[1..] + b;
      if budget > 0 && Apply(s, a[0]).Some? {
        PerformAppend(Apply(s, a[0]).value, a[1..], b, budget - 1);
      }
    }
  }

  predicate HasTemp(s: Storage, name: string) {
    TempKey(name) in s.objects
  }

  /** Temporary keys differ where their names do, and differ from all permanent ones. */
  lemma TempKeysApart(directory: string, base: string, n: string)
    requires Permanent(directory)
    ensures TempKey(n) != directory + "/" + base && (TempKey(n) == TempKey(base) <==> n == base)
  {
    PermanentKey(directory, base);
    assert TempKey(n)[..5] == "temp/" && TempKey(n)[5..] == n;
    assert TempKey(base)[5..] == base;
  }

  /** What a completed move leaves in storage. */
  function Moved(s: Storage, base: string, directory: string): Storage
    requires HasTemp(s, base)
  {
    s.(objects := s.objects[directory + "/" + base := s.objects[TempKey(base)]] - {TempKey(base)})
  }

  lemma MovePerforms(s: Storage, name: string, directory: string, budget: nat)
    requires budget >= 2
    ensures var base := BaseName(name);
      Perform(s, Move(name, directory), budget)
      == if HasTemp(s, base) then (Moved(s, base, directory), true) else (s, false)
  {
    var ops, base := Move(name, directory), BaseName(name);
    assert ops[1..] == [Delete(TempKey(base))];
    if HasTemp(s, base) {
      var s1 := Apply(s, ops[0]).value;
      assert Perform(s, ops, budget) == Perform(s1, ops[1..], budget - 1);
      assert Perform(s1, ops[1..], budget - 1) == Perform(Apply(s1, ops[1..][0]).value, [], budget - 2);
    }
  }

  /** A move completes exactly when its file is still in temporary storage, and takes only that away. */
  lemma MoveEffect(s: Storage, name: string, directory: string, budget: nat)
    requires budget >= 2 && Permanent(directory)
    ensures var (s', done) := Perform(s, Move(name, directory), budget);
      && (done <==> HasTemp(s, BaseName(name)))
      && (!done ==> s' == s)
      && (done ==> forall n :: HasTemp(s', n) <==> HasTemp(s, n) && n != BaseName(name))
  {
    MovePerforms(s, name, directory, budget);
    forall n ensures TempKey(n) != directory + "/" + BaseName(name)
      ensures TempKey(n) == TempKey(BaseName(name)) <==> n == BaseName(name)
    {
      TempKeysApart(directory, BaseName(name), n);
    }
  }

  /** The files named, by the names they are stored under, are all in temporary storage. */
  predicate AllTemporary(s: Storage, names: seq<string>) {
    forall base :: base in BaseNames(names) ==> HasTemp(s, base)
  }

  predicate Distinct(bases: seq<string>) {
    forall i, j :: 0 <= i < j < |bases| ==> bases[i] != bases[j]
  }

  predicate DistinctFiles(names: seq<string>) {
    Distinct(BaseNames(names))
  }

  predicate Apart(a: seq<string>, b: seq<string>) {
    forall i, j :: 0 <= i < |a| && 0 <= j < |b| ==> a[i] != b[j]
  }

  lemma DistinctParts(a: seq<string>, b: seq<string>)
    requires Distinct(a + b)
    ensures Distinct(a) && Distinct(b) && Apart(a, b)
  {
    var all := a + b;
    forall i, j | 0 <= i < j < |a| ensures a[i] != a[j] {
      assert all[i] != all[j];
    }
    forall i, j | 0 <= i < j < |b| ensures b[i] != b[j] {
      assert all[|a| + i] != all[|a| + j];
    }
    forall i, j | 0 <= i < |a| && 0 <= j < |b| ensures a[i] != b[j] {
      assert all[i] != all[|a| + j];
    }
  }

  lemma DistinctAppend(a: seq<string>, b: seq<string>)
    ensures Distinct(a + b) <==> Distinct(a) && Distinct(b) && Apart(a, b)
  {
    if Distinct(a + b) {
      DistinctParts(a, b);
    }
  }

  lemma BaseNamesAppend(names: seq<string>, more: seq<string>)
    ensures BaseNames(names + more) == BaseNames(names) + BaseNames(more)
  {
  }

  /**
   A batch of moves completes exactly when no file is named twice and each is still in temporary
   storage, and takes exactly these files away from there.
   */
  lemma {:induction false} MovesCompleteIff(s: Storage, names: seq<string>, directory: string, budget: nat)
    requires budget >= 2 * |names| && Permanent(directory)
    ensures var (s', done) := Perform(s, MoveAll(names, directory), budget);
      && (done <==> DistinctFiles(names) && AllTemporary(s, names))
      && (done ==> forall n :: HasTemp(s', n) <==> HasTemp(s, n) && n !in BaseNames(names))
    decreases |names|
  {
    if names == [] {
    } else {
      var earlier, last := names[..|names| - 1], names[|names| - 1];
      assert earlier + [last] == names;
      MovesCompleteIff(s, earlier, directory, budget);
      PerformAppend(s, MoveAll(earlier, directory), Move(last, directory), budget);
      BaseNamesAppend(earlier, [last]);
      assert BaseNames([last]) == [BaseName(last)];
      DistinctAppend(BaseNames(earlier), [BaseName(last)]);
      var (s1, done) := Perform(s, MoveAll(earlier, directory), budget);
      if done {
        MoveEffect(s1, last, directory, budget - 2 * |earlier|);
      }
    }
  }

  lemma {:induction false} MoveAllHead(names: seq<string>, directory: string)
    requires names != []
    ensures MoveAll(names, directory) == Move(names[0], directory) + MoveAll(names[1..], directory)
    decreases |names|
  {
    var last := |names| - 1;
    if last > 0 {
      MoveAllHead(names[..last], directory);
      assert names[..last][1..] == names[1..][..last - 1];
    } else {
      assert names[1..] == [] && names[..0] == [];
    }
  }

  /** No planned operation puts anything into temporary storage. */
  lemma {:induction false} TemporaryOnlyShrinks(s: Storage, ops: seq<Op>, budget: nat, key: string)
    requires forall op :: op in ops && op.Copy? ==> !Temporary(op.key)
    requires Temporary(key) && key !in s.objects
    ensures key !in Perform(s, ops, budget).0.objects
    decreases |ops|
  {
    if ops == [] || budget == 0 || Apply(s, ops[0]).None? {
    } else {
      assert ops[0] in ops;
      TemporaryOnlyShrinks(Apply(s, ops[0]).value, ops[1..], budget - 1, key);
    }
  }

  // ----- whole jobs and their retries -----

  /** The files of a job, in the order in which they move. */
  function Files(job: Job): seq<string> {
    match job
    case PetImages(_, nose, profiles, _, _) => [nose] + profiles
    case GuardianImage(_, profile, _, _) => [profile]
    case PostImages(_, body) => if Trim(ImagesOf(body)) == "" then [] else NamesIn(ImagesOf(body))
  }

  /** The directory of the first file, and the moves after it. */
  lemma FirstMove(job: Job) returns (directory: string, rest: seq<Op>)
    requires Files(job) != []
    ensures Permanent(directory) && Planned(rest) && Moves(job) == Move(Files(job)[0], directory) + rest
  {
    match job
    case PetImages(did, nose, profiles, _, _) =>
      directory, rest := "nose-print-photo/" + did, MoveAll(profiles, "pet");
      assert directory[0] == 'n';
      MoveAllPlanned(profiles, "pet");
    case GuardianImage(_, profile, _, _) =>
      directory, rest := "guardian", [];
      assert Move(profile, "guardian") + [] == Move(profile, "guardian");
    case PostImages(target, body) =>
      var names := NamesIn(ImagesOf(body));
      directory, rest := FolderKey(target), MoveAll(names[1..], FolderKey(target));
      MoveAllHead(names, directory);
      MoveAllPlanned(names[1..], directory);
  }

  lemma PetMovesCompleteIff(s: Storage, nose: string, profiles: seq<string>, directory: string, budget: nat)
    requires budget >= 2 + 2 * |profiles| && Permanent(directory)
    ensures Perform(s, Move(nose, directory) + MoveAll(profiles, "pet"), budget).1
            <==> DistinctFiles([nose] + profiles) && AllTemporary(s, [nose] + profiles)
  {
    PerformAppend(s, Move(nose, directory), MoveAll(profiles, "pet"), budget);
    MoveEffect(s, nose, directory, budget);
    BaseNamesAppend([nose], profiles);
    assert BaseNames([nose]) == [BaseName(nose)];
    DistinctAppend([BaseName(nose)], BaseNames(profiles));
    var (s1, done) := Perform(s, Move(nose, directory), budget);
    if done {
      MovesCompleteIff(s1, profiles, "pet", budget - 2);
    }
  }

  lemma OneMove(name: string, directory: string)
    ensures MoveAll([name], directory) == Move(name, directory)
    ensures DistinctFiles([name])
  {
    assert [name][..0] == [];
    assert BaseNames([name]) == [BaseName(name)];
  }

  lemma JobMovesCompleteIff(s: Storage, job: Job, budget: nat)
    requires budget >= |Moves(job)|
    ensures Perform(s, Moves(job), budget).1 <==> DistinctFiles(Files(job)) && AllTemporary(s, Files(job))
  {
    match job
    case PetImages(did, nose, profiles, _, _) =>
      assert ("nose-print-photo/" + did)[0] == 'n';
      PetMovesCompleteIff(s, nose, profiles, "nose-print-photo/" + did, budget);
    case GuardianImage(_, profile, _, _) =>
      OneMove(profile, "guardian");
      MovesCompleteIff(s, [profile], "guardian", budget);
    case PostImages(target, body) =>
      if Trim(ImagesOf(body)) != "" {
        MovesCompleteIff(s, NamesIn(ImagesOf(body)), FolderKey(target), budget);
      }
  }

  /** A job that is not cut off completes exactly when it names no file twice and all its files are still there. */
  lemma JobCompletesIff(c: Config, s: Storage, job: Job, budget: nat)
    requires budget >= |OpsOf(c, job)|
    ensures Perform(s, OpsOf(c, job), budget).1 <==> DistinctFiles(Files(job)) && AllTemporary(s, Files(job))
  {
    JobMovesCompleteIff(s, job, budget);
    PerformAppend(s, Moves(job), [Send(Outcome(c, job))], budget);
  }

  /** Until the first copy is done, and right after it, every file is where it was. */
  lemma FirstCopyKeepsTemporary(c: Config, s: Storage, job: Job, cutOff: nat)
    requires cutOff <= 1 || Files(job) == []
    ensures forall n :: HasTemp(Perform(s, OpsOf(c, job), cutOff).0, n) <==> HasTemp(s, n)
  {
    var ops := OpsOf(c, job);
    if Files(job) != [] && cutOff == 1 {
      var directory, rest := FirstMove(job);
      var base := BaseName(Files(job)[0]);
      assert ops[0] == Copy(TempKey(base), directory + "/" + base);
      forall n ensures TempKey(n) != directory + "/" + base {
        TempKeysApart(directory, base, n);
      }
      if HasTemp(s, base) {
        assert Perform(s, ops, 1) == Perform(Apply(s, ops[0]).value, ops[1..], 0);
      }
    } else if Files(job) == [] {
      NothingMoves(job);
      assert ops == [Send(Outcome(c, job))];
    }
  }

  lemma NothingMoves(job: Job)
    requires Files(job) == []
    ensures Moves(job) == []
  {
  }

  /** Past its second operation, the first file of a job is gone from temporary storage. */
  lemma FirstFileIsGone(c: Config, s: Storage, job: Job, cutOff: nat)
    requires cutOff >= 2 && Files(job) != []
    ensures !HasTemp(Perform(s, OpsOf(c, job), cutOff).0, BaseName(Files(job)[0]))
  {
    var directory, rest := FirstMove(job);
    MovedFileIsGone(s, Files(job)[0], directory, rest, Send(Outcome(c, job)), cutOff);
    assert OpsOf(c, job) == Move(Files(job)[0], directory) + (rest + [Send(Outcome(c, job))]);
  }

  lemma MovedFileIsGone(s: Storage, name: string, directory: string, rest: seq<Op>, last: Op, cutOff: nat)
    requires cutOff >= 2 && Permanent(directory) && Planned(rest) && last.Send?
    ensures !HasTemp(Perform(s, Move(name, directory) + (rest + [last]), cutOff).0, BaseName(name))
  {
    PerformAppend(s, Move(name, directory), rest + [last], cutOff);
    MoveEffect(s, name, directory, cutOff);
    var (s1, done) := Perform(s, Move(name, directory), cutOff);
    if done {
      RestStaysOut(rest, last);
      assert TempKey(BaseName(name))[..5] == "temp/";
      TemporaryOnlyShrinks(s1, rest + [last], cutOff - 2, TempKey(BaseName(name)));
    }
  }

  lemma RestStaysOut(rest: seq<Op>, last: Op)
    requires Planned(rest) && last.Send?
    ensures forall op :: op in rest + [last] && op.Copy? ==> !Temporary(op.key)
  {
    forall op | op in rest + [last] && op.Copy? ensures !Temporary(op.key) {
      var i :| 0 <= i < |rest| && rest[i] == op;
      assert PlannedAt(rest, i);
    }
  }

  /**
   A retry completes exactly when the whole job would have completed at once, and the first attempt
   was cut off no later than after its first copy. Past that, what it moved is gone from temporary
   storage and no retry of the job completes. (A job without files has nothing to lose.)
   */
  lemma RetryCompletesIff(c: Config, s: Storage, job: Job, cutOff: nat, budget: nat)
    requires budget >= |OpsOf(c, job)|
    ensures Perform(Perform(s, OpsOf(c, job), cutOff).0, OpsOf(c, job), budget).1
            <==> Perform(s, OpsOf(c, job), budget).1 && (cutOff <= 1 || Files(job) == [])
  {
    var s1 := Perform(s, OpsOf(c, job), cutOff).0;
    JobCompletesIff(c, s, job, budget);
    JobCompletesIff(c, s1, job, budget);
    if cutOff <= 1 || Files(job) == [] {
      FirstCopyKeepsTemporary(c, s, job, cutOff);
    } else {
      FirstFileIsGone(c, s, job, cutOff);
    }
  }

  // ----- one uninterrupted attempt is a run -----

  function Dos(id: nat, k: nat): seq<Step> {
    if k == 0 then [] else [Do(id)] + Dos(id, k - 1)
  }

  lemma {:induction false} IdleDos(c: Config, w: World, id: nat, k: nat)
    requires id !in w.attempts || w.attempts[id].next >= |w.attempts[id].ops|
    ensures Run(c, w, Dos(id, k)) == w
  {
    if k == 0 {
    } else {
      assert Dos(id, k)[1..] == Dos(id, k - 1);
      IdleDos(c, w, id, k - 1);
    }
  }

  lemma {:induction false} DosPerform(c: Config, w: World, id: nat, k: nat)
    requires id in w.attempts && w.attempts[id].next <= |w.attempts[id].ops|
    ensures Run(c, w, Dos(id, k)).storage
            == Perform(w.storage, w.attempts[id].ops[w.attempts[id].next..], k).0
    decreases k
  {
    var a := w.attempts[id];
    if a.next == |a.ops| {
      IdleDos(c, w, id, k);
    } else if k > 0 {
      assert Dos(id, k)[1..] == Dos(id, k - 1);
      assert a.ops[a.next..][1..] == a.ops[a.next + 1..];
      var w' := Next(c, w, Do(id));
      if Apply(w.storage, a.ops[a.next]).Some? {
        DosPerform(c, w', id, k - 1);
      } else {
        IdleDos(c, w', id, k - 1);
      }
    }
  }

  /** So what a handler leaves behind when it is cut off is what a run of the model can reach. */
  lemma AttemptIsRun(c: Config, w: World, id: nat, job: Job, k: nat)
    ensures Run(c, w, [Begin(id, job)] + Dos(id, k)).storage == Perform(w.storage, OpsOf(c, job), k).0
  {
    assert ([Begin(id, job)] + Dos(id, k))[1..] == Dos(id, k);
    DosPerform(c, Next(c, w, Begin(id, job)), id, k);
    assert OpsOf(c, job)[0..] == OpsOf(c, job);
  }
}
