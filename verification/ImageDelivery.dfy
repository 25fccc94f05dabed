/** What a completed job has done: where each file went, with which bytes, and what was sent on. */
module ImageDelivery {
  import opened Bytes
  import opened FileNames
  import opened Images
  import opened ImageProofs
  import opened Json
  import opened Text
  import opened Wrappers

  // ----- files -----

  /** The file of this name is in the directory, with the bytes it had in `temp/`, and no longer there. */
  predicate Arrived(s: Storage, s': Storage, directory: string, base: string) {
    && "temp/" + base in s.objects && directory + "/" + base in s'.objects
    && s'.objects[directory + "/" + base] == s.objects["temp/" + base]
    && "temp/" + base !in s'.objects
  }

  /** The key is neither that of one of these files in `temp/` nor that of one in the directory. */
  predicate Elsewhere(key: string, directory: string, bases: seq<string>) {
    forall base :: base in bases ==> key != "temp/" + base && key != directory + "/" + base
  }

  predicate SameAt(s: Storage, s': Storage, key: string) {
    (key in s.objects <==> key in s'.objects) && (key in s.objects ==> s'.objects[key] == s.objects[key])
  }

  /** All these files arrived, and nothing else changed. */
  ghost predicate Delivered(s: Storage, s': Storage, directory: string, bases: seq<string>) {
    && s'.sent == s.sent
    && (forall base :: base in bases ==> Arrived(s, s', directory, base))
    && (forall key :: Elsewhere(key, directory, bases) ==> SameAt(s, s', key))
  }

  lemma KeysApart(directory: string, a: string, b: string)
    requires Permanent(directory)
    ensures directory + "/" + a != "temp/" + b
    ensures "temp/" + a == "temp/" + b <==> a == b
    ensures directory + "/" + a == directory + "/" + b <==> a == b
  {
    PermanentKey(directory, a);
    assert ("temp/" + b)[..5] == "temp/";
    assert ("temp/" + a)[5..] == a && ("temp/" + b)[5..] == b;
    assert (directory + "/" + a)[|directory| + 1..] == a && (directory + "/" + b)[|directory| + 1..] == b;
  }

  lemma MoveDelivers(s: Storage, name: string, directory: string, budget: nat)
    requires budget >= 2 && Permanent(directory) && Perform(s, Move(name, directory), budget).1
    ensures Delivered(s, Perform(s, Move(name, directory), budget).0, directory, [BaseName(name)])
  {
    var base := BaseName(name);
    MovePerforms(s, name, directory, budget);
    KeysApart(directory, base, base);
    assert TempKey(base) == "temp/" + base;
    var s' := Moved(s, base, directory);
    assert base in [base];
    forall key | Elsewhere(key, directory, [base]) ensures SameAt(s, s', key) {}
  }

  /** One more file: what had arrived stays, and the new one has the bytes it had at first. */
  lemma DeliveredThen(s: Storage, s1: Storage, s2: Storage, directory: string, bases: seq<string>, base: string)
    requires Permanent(directory) && base !in bases
    requires Delivered(s, s1, directory, bases) && Delivered(s1, s2, directory, [base])
    ensures Delivered(s, s2, directory, bases + [base])
  {
    forall b | b in bases + [base] ensures Arrived(s, s2, directory, b) {
      if b in bases {
        ArrivedStays(s, s1, s2, directory, b, base);
      } else {
        NewArrives(s, s1, s2, directory, bases, base);
      }
    }
    forall key | Elsewhere(key, directory, bases + [base]) ensures SameAt(s, s2, key) {
      assert Elsewhere(key, directory, bases) && Elsewhere(key, directory, [base]);
    }
  }

  lemma ArrivedStays(s: Storage, s1: Storage, s2: Storage, directory: string, b: string, base: string)
    requires Permanent(directory) && b != base
    requires Arrived(s, s1, directory, b) && Delivered(s1, s2, directory, [base])
    ensures Arrived(s, s2, directory, b)
  {
    KeysApart(directory, b, base);
    KeysApart(directory, base, b);
    assert Elsewhere(directory + "/" + b, directory, [base]) && Elsewhere("temp/" + b, directory, [base]);
  }

  lemma NewArrives(s: Storage, s1: Storage, s2: Storage, directory: string, bases: seq<string>, base: string)
    requires Permanent(directory) && base !in bases
    requires Delivered(s, s1, directory, bases) && Delivered(s1, s2, directory, [base])
    ensures Arrived(s, s2, directory, base)
  {
    assert base in [base];
    forall b | b in bases ensures "temp/" + base != "temp/" + b && "temp/" + base != directory + "/" + b {
      KeysApart(directory, b, base);
    }
    assert Elsewhere("temp/" + base, directory, bases);
  }

  lemma {:induction false} MovesDeliver(s: Storage, names: seq<string>, directory: string, budget: nat)
    requires Permanent(directory) && Perform(s, MoveAll(names, directory), budget).1
    ensures Delivered(s, Perform(s, MoveAll(names, directory), budget).0, directory, BaseNames(names))
    ensures budget >= 2 * |names|
    decreases |names|
  {
    if names == [] {
    } else {
      var earlier, last := names[..|names| - 1], names[|names| - 1];
      assert earlier + [last] == names;
      PerformAppend(s, MoveAll(earlier, directory), Move(last, directory), budget);
      var (s1, done) := Perform(s, MoveAll(earlier, directory), budget);
      MovesDeliver(s, earlier, directory, budget);
      TwoOperations(s1, last, directory, budget - 2 * |earlier|);
      MovesCompleteIff(s, names, directory, budget);
      BaseNamesAppend(earlier, [last]);
      assert BaseNames([last]) == [BaseName(last)];
      DistinctParts(BaseNames(earlier), [BaseName(last)]);
      assert BaseName(last) !in BaseNames(earlier) by {
        assert [BaseName(last)][0] == BaseName(last);
      }
      MoveDelivers(s1, last, directory, budget - 2 * |earlier|);
      DeliveredThen(s, s1, Perform(s, MoveAll(names, directory), budget).0, directory, BaseNames(earlier),
                    BaseName(last));
    }
  }

  lemma TwoOperations(s: Storage, name: string, directory: string, budget: nat)
    requires Perform(s, Move(name, directory), budget).1
    ensures budget >= 2
  {
    var ops := Move(name, directory);
    assert ops == [ops[0]] + [ops[1]];
    PerformAppend(s, [ops[0]], [ops[1]], budget);
  }

  // ----- what is sent -----

  /** `data` with one key set, and nothing else changed. */
  ghost predicate SetTo(data: map<string, string>, data': map<string, string>, key: string, value: string) {
    && key in data' && data'[key] == value
    && forall k :: k != key ==> (k in data <==> k in data') && (k in data ==> data'[k] == data[k])
  }

  /** The addresses of these files in the bucket, in order. */
  predicate Addresses(c: Config, directory: string, names: seq<string>, urls: seq<string>) {
    && |urls| == |names|
    && forall i :: 0 <= i < |urls| ==> urls[i] == c.endpoint + "/" + c.bucket + "/" + directory + "/" + names[i]
  }

  /** The verb, the path and the folder of each post. */
  predicate GoesTo(t: Target, verb: string, path: string, folder: string) {
    match t
    case CreateAdoption => verb == "post" && path == "/api/adoption/post" && folder == "adoption"
    case UpdateAdoption(id) => verb == "patch" && path == "/api/adoption/" + Decimal(id) && folder == "adoption"
    case CreateDiary => verb == "post" && path == "/api/story/daily" && folder == "diary"
    case CreateReview => verb == "post" && path == "/api/story/review" && folder == "review"
    case CreateDonation => verb == "post" && path == "/api/donation/posts" && folder == "donation"
  }

  /** The body of a post: its images as addresses, unless blank, and `deadLine` renamed for a new adoption. */
  ghost predicate SendsBody(c: Config, t: Target, folder: string, body: map<string, string>,
                            sent: map<string, string>) {
    exists data: map<string, string> ::
      && (if Blank(ImagesOf(body)) then data == body
          else exists urls ::
            Addresses(c, folder, BaseNames(NamesIn(ImagesOf(body))), urls)
            && SetTo(body, data, "images", Join(urls, ",")))
      && if t.CreateAdoption? && "deadLine" in data && |data["deadLine"]| > 0
         then "deadLine" !in sent && SetTo(data, sent["deadLine" := data["deadLine"]], "deadline", data["deadLine"])
         else sent == data
  }

  /** What a job sends on: its data with the addresses of its files, to the queue or the endpoint it is for. */
  ghost predicate Announces(c: Config, job: Job, r: Registration) {
    match job
    case PetImages(did, _, profiles, guardian, data) =>
      && r.PetRegistration? && r.guardian == guardian && r.petDid == did
      && exists urls :: Addresses(c, "pet", profiles, urls) && SetTo(data, r.data, "images", Join(urls, ","))
    case GuardianImage(guardian, profile, data, role) =>
      && (if role == "USER" then r.UserRegistration? else r.AdminRegistration?) && r.guardian == guardian
      && SetTo(data, r.data, "profileUrl", c.endpoint + "/" + c.bucket + "/guardian/" + profile)
    case PostImages(target, body) =>
      && r.Post?
      && exists folder :: GoesTo(target, r.verb, r.path, folder) && SendsBody(c, target, folder, body, r.body)
  }

  lemma AddressesOf(c: Config, directory: string, names: seq<string>)
    ensures Addresses(c, directory, names, Urls(c, JobKeys(names, directory)))
  {
    forall i | 0 <= i < |names|
      ensures Urls(c, JobKeys(names, directory))[i]
              == c.endpoint + "/" + c.bucket + "/" + directory + "/" + names[i]
    {
      assert c.endpoint + "/" + c.bucket + "/" + (directory + "/" + names[i])
             == c.endpoint + "/" + c.bucket + "/" + directory + "/" + names[i];
    }
  }

  lemma BodyIsSent(c: Config, t: Target, body: map<string, string>)
    ensures SendsBody(c, t, FolderKey(t), body, SpringBody(t, PostedBody(c, t, body)))
  {
    var data := PostedBody(c, t, body);
    BlankIff(ImagesOf(body));
    if !Blank(ImagesOf(body)) {
      var names := BaseNames(NamesIn(ImagesOf(body)));
      AddressesOf(c, FolderKey(t), names);
      assert SetTo(body, data, "images", Join(Urls(c, JobKeys(names, FolderKey(t))), ","));
    }
    if t.CreateAdoption? && "deadLine" in data && |data["deadLine"]| > 0 {
      var sent := SpringBody(t, data);
      assert SetTo(data, sent["deadLine" := data["deadLine"]], "deadline", data["deadLine"]);
    }
  }

  lemma OutcomeIsAnnounced(c: Config, job: Job)
    ensures Announces(c, job, Outcome(c, job))
  {
    match job
    case PetImages(did, _, profiles, guardian, data) =>
      AddressesOf(c, "pet", profiles);
      assert SetTo(data, Outcome(c, job).data, "images", Join(Urls(c, JobKeys(profiles, "pet")), ","));
    case GuardianImage(guardian, profile, data, role) =>
      assert c.endpoint + "/" + c.bucket + "/" + ("guardian/" + profile)
             == c.endpoint + "/" + c.bucket + "/guardian/" + profile;
    case PostImages(target, body) =>
      BodyIsSent(c, target, body);
      assert GoesTo(target, Outcome(c, job).verb, Outcome(c, job).path, FolderKey(target));
  }

  // ----- whole jobs -----

  /** These files arrived in this directory, and of the rest of storage nothing changed. */
  ghost predicate InFolder(s: Storage, s': Storage, folder: string, bases: seq<string>) {
    && (forall base :: base in bases ==> Arrived(s, s', folder, base))
    && (forall key :: Elsewhere(key, folder, bases) ==> SameAt(s, s', key))
  }

  /** The files of a post, by the names they are stored under. */
  ghost function PostFiles(body: map<string, string>): seq<string> {
    if Blank(ImagesOf(body)) then [] else BaseNames(NamesIn(ImagesOf(body)))
  }

  /** Every file of the job arrived in its directory, and of the rest of storage nothing changed. */
  ghost predicate FilesArrived(s: Storage, s': Storage, job: Job) {
    match job
    case PetImages(did, nose, profiles, _, _) =>
      && Arrived(s, s', "nose-print-photo/" + did, BaseName(nose))
      && (forall base :: base in BaseNames(profiles) ==> Arrived(s, s', "pet", base))
      && (forall key :: Elsewhere(key, "nose-print-photo/" + did, [BaseName(nose)]) ==>
                          Elsewhere(key, "pet", BaseNames(profiles)) ==> SameAt(s, s', key))
    case GuardianImage(_, profile, _, _) =>
      InFolder(s, s', "guardian", [BaseName(profile)])
    case PostImages(target, body) =>
      exists verb, path, folder :: GoesTo(target, verb, path, folder) && InFolder(s, s', folder, PostFiles(body))
  }

  /** The moves of a pet: the nose print, then the profiles, none of which is the same file. */
  lemma PetMovesDeliver(s: Storage, did: string, nose: string, profiles: seq<string>, budget: nat)
    requires Perform(s, Move(nose, "nose-print-photo/" + did) + MoveAll(profiles, "pet"), budget).1
    ensures var s' := Perform(s, Move(nose, "nose-print-photo/" + did) + MoveAll(profiles, "pet"), budget).0;
      && s'.sent == s.sent
      && Arrived(s, s', "nose-print-photo/" + did, BaseName(nose))
      && (forall base :: base in BaseNames(profiles) ==> Arrived(s, s', "pet", base))
      && (forall key :: Elsewhere(key, "nose-print-photo/" + did, [BaseName(nose)]) ==>
                          Elsewhere(key, "pet", BaseNames(profiles)) ==> SameAt(s, s', key))
  {
    var directory, base := "nose-print-photo/" + did, BaseName(nose);
    assert directory[0] == 'n';
    PerformAppend(s, Move(nose, directory), MoveAll(profiles, "pet"), budget);
    TwoOperations(s, nose, directory, budget);
    MoveDelivers(s, nose, directory, budget);
    var s1 := Perform(s, Move(nose, directory), budget).0;
    MovesDeliver(s1, profiles, "pet", budget - 2);
    PetMovesApart(s, s1, Perform(s1, MoveAll(profiles, "pet"), budget - 2).0, directory, base, BaseNames(profiles));
  }

  lemma PetMovesApart(s: Storage, s1: Storage, s2: Storage, directory: string, nose: string, bases: seq<string>)
    requires directory != "" && directory[0] == 'n'
    requires Delivered(s, s1, directory, [nose]) && Delivered(s1, s2, "pet", bases)
    ensures Arrived(s, s2, directory, nose)
    ensures forall base :: base in bases ==> Arrived(s, s2, "pet", base)
    ensures forall key :: Elsewhere(key, directory, [nose]) && Elsewhere(key, "pet", bases) ==> SameAt(s, s2, key)
  {
    assert nose in [nose];
    forall base | base in bases ensures base != nose {
      assert Arrived(s1, s2, "pet", base) && Arrived(s, s1, directory, nose);
    }
    NoseStays(s, s1, s2, directory, nose, bases);
    forall base | base in bases ensures Arrived(s, s2, "pet", base) {
      KeysApart(directory, nose, base);
      KeysApart(directory, base, nose);
      assert Elsewhere("temp/" + base, directory, [nose]);
      assert SameAt(s, s1, "temp/" + base) && Arrived(s1, s2, "pet", base);
    }
  }

  lemma NoseStays(s: Storage, s1: Storage, s2: Storage, directory: string, nose: string, bases: seq<string>)
    requires directory != "" && directory[0] == 'n' && nose !in bases
    requires Arrived(s, s1, directory, nose) && Delivered(s1, s2, "pet", bases)
    ensures Arrived(s, s2, directory, nose)
  {
    forall base | base in bases
      ensures directory + "/" + nose != "temp/" + base && directory + "/" + nose != "pet" + "/" + base
      ensures "temp/" + nose != "temp/" + base && "temp/" + nose != "pet" + "/" + base
    {
      KeysApart(directory, nose, base);
      KeysApart("pet", base, nose);
      assert (directory + "/" + nose)[0] == 'n' && ("pet" + "/" + base)[0] == 'p';
    }
    assert Elsewhere(directory + "/" + nose, "pet", bases) && Elsewhere("temp/" + nose, "pet", bases);
  }

  /**
   A job that completes has moved each of its files, with its bytes, from temporary storage to the
   directory it is for, has touched no other object, and has sent one message: its data with the addresses
   of these files, to the queue of its role or the endpoint of its kind.
   */
  lemma JobDelivers(c: Config, s: Storage, job: Job, budget: nat)
    requires Perform(s, OpsOf(c, job), budget).1
    ensures var s' := Perform(s, OpsOf(c, job), budget).0;
      && FilesArrived(s, s', job)
      && |s'.sent| == |s.sent| + 1 && s.sent <= s'.sent && Announces(c, job, s'.sent[|s.sent|])
  {
    PerformAppend(s, Moves(job), [Send(Outcome(c, job))], budget);
    OutcomeIsAnnounced(c, job);
    JobMovesDeliver(s, job, budget);
    var s1 := Perform(s, Moves(job), budget).0;
    assert Perform(s, OpsOf(c, job), budget).0 == s1.(sent := s1.sent + [Outcome(c, job)]);
    ArrivedWhenSent(s, s1, s1.(sent := s1.sent + [Outcome(c, job)]), job);
  }

  lemma ArrivedWhenSent(s: Storage, s1: Storage, s2: Storage, job: Job)
    requires FilesArrived(s, s1, job) && s2.objects == s1.objects
    ensures FilesArrived(s, s2, job)
  {
    if job.PostImages? {
      var verb, path, folder :|
        GoesTo(job.target, verb, path, folder) && InFolder(s, s1, folder, PostFiles(job.body));
      assert InFolder(s, s2, folder, PostFiles(job.body));
    }
  }

  lemma JobMovesDeliver(s: Storage, job: Job, budget: nat)
    requires Perform(s, Moves(job), budget).1
    ensures FilesArrived(s, Perform(s, Moves(job), budget).0, job) && Perform(s, Moves(job), budget).0.sent == s.sent
  {
    match job
    case PetImages(did, nose, profiles, _, _) => PetMovesDeliver(s, did, nose, profiles, budget);
    case GuardianImage(_, profile, _, _) =>
      TwoOperations(s, profile, "guardian", budget);
      MoveDelivers(s, profile, "guardian", budget);
      assert BaseName(profile) in [BaseName(profile)];
    case PostImages(target, body) =>
      BlankIff(ImagesOf(body));
      assert GoesTo(target, Endpoint(target).0, Endpoint(target).1, FolderKey(target));
      if !Blank(ImagesOf(body)) {
        MovesDeliver(s, NamesIn(ImagesOf(body)), FolderKey(target), budget);
      }
  }
}
