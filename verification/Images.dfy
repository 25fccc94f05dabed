/**
 Uploaded images on their way to permanent storage: jobs as lists of storage operations, one
 attempt that may stop anywhere, and runs in which attempts of many jobs interleave.
 */
module Images {
  import opened Bytes
  import opened FileNames
  import opened Json
  import opened Text
  import opened Wrappers

  datatype Config = Config(endpoint: string, bucket: string)

  function Url(c: Config, key: string): string {
    c.endpoint + "/" + c.bucket + "/" + key
  }

  function Urls(c: Config, keys: seq<string>): (urls: seq<string>)
    ensures |urls| == |keys|
  {
    seq(|keys|, i requires 0 <= i < |keys| => Url(c, keys[i]))
  }

  /** What is sent on to the back end once the images are in place. */
  datatype Registration =
    | PetRegistration(guardian: string, petDid: string, data: map<string, string>)
    | UserRegistration(guardian: string, data: map<string, string>)
    | AdminRegistration(guardian: string, data: map<string, string>)
    | Post(verb: string, path: string, body: map<string, string>)

  datatype Job =
    | PetImages(petDid: string, nose: string, profiles: seq<string>, guardian: string, data: map<string, string>)
    | GuardianImage(guardian: string, profile: string, data: map<string, string>, role: string)
    | PostImages(target: Target, body: map<string, string>)

  /** The five posts with images. */
  datatype Target = CreateAdoption | UpdateAdoption(id: nat) | CreateDiary | CreateReview | CreateDonation

  function FolderKey(t: Target): string {
    match t
    case CreateAdoption => "adoption"
    case UpdateAdoption(_) => "adoption"
    case CreateDiary => "diary"
    case CreateReview => "review"
    case CreateDonation => "donation"
  }

  /** The verb and the path of the call to the back end. */
  function Endpoint(t: Target): (string, string) {
    match t
    case CreateAdoption => ("post", "/api/adoption/post")
    case UpdateAdoption(id) => ("patch", "/api/adoption/" + Decimal(id))
    case CreateDiary => ("post", "/api/story/daily")
    case CreateReview => ("post", "/api/story/review")
    case CreateDonation => ("post", "/api/donation/posts")
  }

  /** A new adoption post renames one field of its body. */
  function SpringBody(t: Target, body: map<string, string>): map<string, string> {
    if t.CreateAdoption? && "deadLine" in body && body["deadLine"] != ""
    then body["deadline" := body["deadLine"]] - {"deadLine"}
    else body
  }

  /** The image list of a body; absent and empty are the same. */
  function ImagesOf(body: map<string, string>): string {
    if "images" in body then body["images"] else ""
  }

  // ----- storage -----

  datatype Storage = Storage(objects: map<string, seq<byte>>, sent: seq<Registration>)

  datatype Op = Copy(source: string, key: string) | Delete(key: string) | Send(registration: Registration)

  /** Copying a missing object fails; deleting one does not. */
  function Apply(s: Storage, op: Op): Option<Storage> {
    match op
    case Copy(source, key) =>
      if source in s.objects then Some(s.(objects := s.objects[key := s.objects[source]])) else None
    case Delete(key) => Some(s.(objects := s.objects - {key}))
    case Send(r) => Some(s.(sent := s.sent + [r]))
  }

  /** One attempt that is cut off after `budget` operations, or at the first that fails. */
  function Perform(s: Storage, ops: seq<Op>, budget: nat): (Storage, bool)
    decreases |ops|
  {
    if ops == [] then (s, true)
    else if budget == 0 then (s, false)
    else
      match Apply(s, ops[0])
      case None => (s, false)
      case Some(s') => Perform(s', ops[1..], budget - 1)
  }

  const TEMP := "temp"

  function TempKey(name: string): string {
    TEMP + "/" + name
  }

  /** `save…ToPermanentStorage`: copy, then delete the temporary object. */
  function Move(fileName: string, directory: string): seq<Op> {
    var name := BaseName(fileName);
    [Copy(TempKey(name), directory + "/" + name), Delete(TempKey(name))]
  }

  function MoveAll(fileNames: seq<string>, directory: string): (ops: seq<Op>)
    ensures |ops| == 2 * |fileNames|
  {
    if fileNames == [] then []
    else MoveAll(fileNames[..|fileNames| - 1], directory) + Move(fileNames[|fileNames| - 1], directory)
  }

  /** Keys as the processor writes them into URLs: from the name in the job, not the normalised one. */
  function JobKeys(names: seq<string>, directory: string): (keys: seq<string>)
    ensures |keys| == |names|
  {
    seq(|names|, i requires 0 <= i < |names| => directory + "/" + names[i])
  }

  function Outcome(c: Config, job: Job): Registration {
    match job
    case PetImages(did, _, profiles, guardian, data) =>
      PetRegistration(guardian, did, data["images" := Join(Urls(c, JobKeys(profiles, "pet")), ",")])
    case GuardianImage(guardian, profile, data, role) =>
      var updated := data["profileUrl" := Url(c, "guardian/" + profile)];
      if role == "USER" then UserRegistration(guardian, updated) else AdminRegistration(guardian, updated)
    case PostImages(target, body) =>
      Post(Endpoint(target).0, Endpoint(target).1, SpringBody(target, PostedBody(c, target, body)))
  }

  /** The image list of a post after its images moved. */
  function PostedImages(c: Config, target: Target, images: string): string {
    Join(Urls(c, JobKeys(BaseNames(NamesIn(images)), FolderKey(target))), ",")
  }

  /** The body of a post after its images moved; a blank list is sent as it came. */
  function PostedBody(c: Config, target: Target, body: map<string, string>): map<string, string> {
    if Trim(ImagesOf(body)) == "" then body else body["images" := PostedImages(c, target, ImagesOf(body))]
  }

  function Moves(job: Job): seq<Op> {
    match job
    case PetImages(did, nose, profiles, _, _) => Move(nose, "nose-print-photo/" + did) + MoveAll(profiles, "pet")
    case GuardianImage(_, profile, _, _) => Move(profile, "guardian")
    case PostImages(target, body) =>
      if Trim(ImagesOf(body)) == "" then [] else MoveAll(NamesIn(ImagesOf(body)), FolderKey(target))
  }

  function OpsOf(c: Config, job: Job): seq<Op> {
    Moves(job) + [Send(Outcome(c, job))]
  }

  // ----- runs -----

  datatype Attempt = Attempt(ops: seq<Op>, next: nat)

  datatype World = World(storage: Storage, uploads: map<string, seq<byte>>, attempts: map<nat, Attempt>)

  datatype Step =
    | Upload(name: string, content: seq<byte>)
    | Begin(id: nat, job: Job)
    | Do(id: nat)
    | Crash(id: nat)

  /** An attempt ends when it is cut off, fails or is finished; its job may begin again. */
  function Next(c: Config, w: World, step: Step): World {
    match step
    case Upload(name, content) =>
      w.(storage := w.storage.(objects := w.storage.objects[TempKey(name) := content]),
         uploads := w.uploads[name := content])
    case Begin(id, job) => w.(attempts := w.attempts[id := Attempt(OpsOf(c, job), 0)])
    case Do(id) =>
      if id !in w.attempts || w.attempts[id].next >= |w.attempts[id].ops| then w
      else
        var a := w.attempts[id];
        (match Apply(w.storage, a.ops[a.next])
         case None => w.(attempts := w.attempts - {id})
         case Some(s) => w.(storage := s, attempts := w.attempts[id := a.(next := a.next + 1)]))
    case Crash(id) => w.(attempts := w.attempts - {id})
  }

  function Run(c: Config, w: World, steps: seq<Step>): World
    decreases |steps|
  {
    if steps == [] then w else Run(c, Next(c, w, steps[0]), steps[1..])
  }

  /** The presigned upload names are fresh, and hold no slash. */
  predicate Legal(w: World, step: Step) {
    step.Upload? ==> '/' !in step.name && step.name !in w.uploads
  }

  ghost predicate LegalRun(c: Config, w: World, steps: seq<Step>)
    decreases |steps|
  {
    steps != [] ==> Legal(w, steps[0]) && LegalRun(c, Next(c, w, steps[0]), steps[1..])
  }
}
