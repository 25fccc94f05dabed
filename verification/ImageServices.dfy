/**
 The storage service, the image-move processor and the image loops of the proxy as the source
 writes them. `budget` operations on storage and queue succeed before one fails or the process
 stops; every handler leaves behind exactly what its list of operations performs by then.
 */
module ImageServices {
  import opened Bytes
  import opened FileNames
  import opened ImageProofs
  import opened Images
  import opened Text
  import opened Wrappers

  /** The bucket and the queue of the back end. */
  class Cloud {
    var objects: map<string, seq<byte>>
    var sent: seq<Registration>
    var budget: nat

    function Contents(): Storage
      reads this
    {
      Storage(objects, sent)
    }

    constructor (budget: nat)
      ensures Contents() == Storage(map[], []) && this.budget == budget
    {
      objects, sent, this.budget := map[], [], budget;
    }

    method Apply(op: Op) returns (ok: bool)
      modifies this
      ensures (Contents(), ok) == Perform(old(Contents()), [op], old(budget))
      ensures budget == if ok then old(budget) - 1 else 0
    {
      ok := false;
      if budget > 0 {
        budget := budget - 1;
        match op {
          case Copy(source, key) =>
            if source in objects {
              objects := objects[key := objects[source]];
              ok := true;
            }
          case Delete(key) =>
            objects := objects - {key};
            ok := true;
          case Send(registration) =>
            sent := sent + [registration];
            ok := true;
        }
      }
      if !ok {
        budget := 0;
      }
    }
  }

  class CommonService {
    const cloud: Cloud
    const bucketName: string

    constructor (cloud: Cloud, bucketName: string)
      ensures this.cloud == cloud && this.bucketName == bucketName
    {
      this.cloud, this.bucketName := cloud, bucketName;
    }

    /** The `save…ToPermanentStorage` methods, which differ in the directory alone. */
    method SaveToPermanentStorage(fileName: string, directory: string) returns (ok: bool)
      modifies cloud
      ensures (cloud.Contents(), ok) == Perform(old(cloud.Contents()), Move(fileName, directory), old(cloud.budget))
      ensures ok ==> cloud.budget == old(cloud.budget) - 2
    {
      var normalized := NormalizeFileName(fileName, bucketName);
      var copy, delete := Copy("temp/" + normalized, directory + "/" + normalized), Delete("temp/" + normalized);
      assert "temp/" + normalized == TempKey(normalized);
      assert Move(fileName, directory) == [copy] + [delete];
      PerformAppend(cloud.Contents(), [copy], [delete], cloud.budget);
      ok := cloud.Apply(copy);
      if ok {
        ok := cloud.Apply(delete);
      }
    }
  }

  class ImageMoveProcessor {
    const config: Config
    const common: CommonService

    ghost predicate Valid() {
      common.bucketName == config.bucket
    }

    constructor (config: Config, common: CommonService)
      requires common.bucketName == config.bucket
      ensures Valid() && this.config == config && this.common == common
    {
      this.config, this.common := config, common;
    }

    /** The loop over the profile images. */
    method MoveProfiles(profiles: seq<string>) returns (ok: bool, urls: seq<string>)
      modifies common.cloud
      ensures (common.cloud.Contents(), ok)
              == Perform(old(common.cloud.Contents()), MoveAll(profiles, "pet"), old(common.cloud.budget))
      ensures ok ==> common.cloud.budget == old(common.cloud.budget) - 2 * |profiles|
      ensures ok ==> urls == Urls(config, JobKeys(profiles, "pet"))
    {
      ghost var start, budget := common.cloud.Contents(), common.cloud.budget;
      urls := [];
      for i := 0 to |profiles|
        invariant (common.cloud.Contents(), true) == Perform(start, MoveAll(profiles[..i], "pet"), budget)
        invariant common.cloud.budget == budget - 2 * i
        invariant |urls| == i && forall j :: 0 <= j < i ==> urls[j] == Url(config, "pet" + "/" + profiles[j])
      {
        MoveAllStep(start, profiles, "pet", i, budget);
        ok := common.SaveToPermanentStorage(profiles[i], "pet");
        if !ok {
          return false, [];
        }
        var imageUrl := Url(config, "pet/" + profiles[i]);
        assert "pet/" + profiles[i] == "pet" + "/" + profiles[i];
        urls := urls + [imageUrl];
      }
      assert profiles[..|profiles|] == profiles;
      return true, urls;
    }

    method HandlePetImageMove(petDid: string, nose: string, profiles: seq<string>, guardian: string,
                              data: map<string, string>) returns (ok: bool)
      modifies common.cloud
      ensures (common.cloud.Contents(), ok)
              == Perform(old(common.cloud.Contents()), OpsOf(config, PetImages(petDid, nose, profiles, guardian, data)),
                         old(common.cloud.budget))
    {
      ghost var start, budget := common.cloud.Contents(), common.cloud.budget;
      ghost var noseMove := Move(nose, "nose-print-photo/" + petDid);
      ghost var send := Outcome(config, PetImages(petDid, nose, profiles, guardian, data));
      PerformAppend(start, noseMove, MoveAll(profiles, "pet"), budget);
      PerformAppend(start, noseMove + MoveAll(profiles, "pet"), [Send(send)], budget);
      ok := common.SaveToPermanentStorage(nose, "nose-print-photo/" + petDid);
      if !ok {
        return false;
      }
      var movedProfileImageUrls;
      ok, movedProfileImageUrls := MoveProfiles(profiles);
      if !ok {
        return false;
      }
      var updatedPetData := data["images" := Join(movedProfileImageUrls, ",")];
      ok := common.cloud.Apply(Send(PetRegistration(guardian, petDid, updatedPetData)));
    }

    method HandleGuardianImageMove(guardian: string, profile: string, data: map<string, string>, role: string)
      returns (ok: bool)
      modifies common.cloud
      ensures (common.cloud.Contents(), ok)
              == Perform(old(common.cloud.Contents()), OpsOf(config, GuardianImage(guardian, profile, data, role)),
                         old(common.cloud.budget))
    {
      var profileImageUrl := Url(config, "guardian/" + profile);
      var updatedGuardianData := data["profileUrl" := profileImageUrl];
      ghost var send := Outcome(config, GuardianImage(guardian, profile, data, role));
      PerformAppend(common.cloud.Contents(), Move(profile, "guardian"), [Send(send)], common.cloud.budget);
      ok := common.SaveToPermanentStorage(profile, "guardian");
      if !ok {
        return false;
      }
      if role == "USER" {
        ok := common.cloud.Apply(Send(UserRegistration(guardian, updatedGuardianData)));
      } else {
        ok := common.cloud.Apply(Send(AdminRegistration(guardian, updatedGuardianData)));
      }
    }
  }

  /** One file more: what the rest of the batch starts from, and what stops the whole batch. */
  lemma MoveAllStep(s: Storage, names: seq<string>, directory: string, i: nat, budget: nat)
    requires i < |names| && Perform(s, MoveAll(names[..i], directory), budget).1
    ensures var (s1, _) := Perform(s, MoveAll(names[..i], directory), budget);
      && budget >= 2 * i
      && Perform(s, MoveAll(names[..i + 1], directory), budget)
         == Perform(s1, Move(names[i], directory), budget - 2 * i)
      && (!Perform(s1, Move(names[i], directory), budget - 2 * i).1 ==>
            Perform(s, MoveAll(names, directory), budget)
            == Perform(s1, Move(names[i], directory), budget - 2 * i))
  {
    assert names[..i + 1][..i] == names[..i];
    PerformAppend(s, MoveAll(names[..i], directory), Move(names[i], directory), budget);
    if !Perform(s, MoveAll(names[..i + 1], directory), budget).1 {
      MoveAllPrefix(names, directory, i + 1);
      PerformAppend(s, MoveAll(names[..i + 1], directory), MoveAll(names[i + 1..], directory), budget);
    }
  }

  lemma {:induction false} MoveAllPrefix(names: seq<string>, directory: string, i: nat)
    requires i <= |names|
    ensures MoveAll(names, directory) == MoveAll(names[..i], directory) + MoveAll(names[i..], directory)
    decreases |names| - i
  {
    if i == |names| {
      assert names[..i] == names;
    } else {
      MoveAllPrefix(names, directory, i + 1);
      MoveAllHead(names[i..], directory);
      assert names[i..][1..] == names[i + 1..];
      assert names[..i + 1][..i] == names[..i];
    }
  }

  class SpringProxyService {
    const config: Config
    const common: CommonService

    constructor (config: Config, common: CommonService)
      ensures this.config == config && this.common == common
    {
      this.config, this.common := config, common;
    }

    /** The image loop that the five post methods repeat. */
    method MoveImages(names: seq<string>, target: Target) returns (ok: bool, urls: seq<string>)
      modifies common.cloud
      ensures (common.cloud.Contents(), ok)
              == Perform(old(common.cloud.Contents()), MoveAll(names, FolderKey(target)), old(common.cloud.budget))
      ensures ok ==> common.cloud.budget == old(common.cloud.budget) - 2 * |names|
      ensures ok ==> urls == Urls(config, JobKeys(BaseNames(names), FolderKey(target)))
    {
      ghost var start, budget := common.cloud.Contents(), common.cloud.budget;
      var directory := FolderKey(target);
      urls := [];
      for i := 0 to |names|
        invariant (common.cloud.Contents(), true) == Perform(start, MoveAll(names[..i], directory), budget)
        invariant common.cloud.budget == budget - 2 * i
        invariant |urls| == i
        invariant forall j :: 0 <= j < i ==> urls[j] == Url(config, directory + "/" + BaseName(names[j]))
      {
        var fileNameOnly := NormalizeFileName(names[i], config.bucket);
        MoveAllStep(start, names, directory, i, budget);
        ok := common.SaveToPermanentStorage(names[i], directory);
        if !ok {
          return false, [];
        }
        urls := urls + [Url(config, directory + "/" + fileNameOnly)];
      }
      assert names[..|names|] == names;
      return true, urls;
    }

    /** A post method: its images, then the call to the back end. */
    method PostWithImages(target: Target, body: map<string, string>) returns (ok: bool)
      modifies common.cloud
      ensures (common.cloud.Contents(), ok)
              == Perform(old(common.cloud.Contents()), OpsOf(config, PostImages(target, body)),
                         old(common.cloud.budget))
    {
      ghost var job := PostImages(target, body);
      PerformAppend(common.cloud.Contents(), Moves(job), [Send(Outcome(config, job))], common.cloud.budget);
      var data := body;
      if Trim(ImagesOf(data)) != "" {
        var movedImageUrls;
        ok, movedImageUrls := MoveImages(NamesIn(ImagesOf(data)), target);
        if !ok {
          return false;
        }
        data := data["images" := Join(movedImageUrls, ",")];
      }
      if target.CreateAdoption? && "deadLine" in data && data["deadLine"] != "" {
        data := data["deadline" := data["deadLine"]];
        data := data - {"deadLine"};
      }
      ok := common.cloud.Apply(Send(Post(Endpoint(target).0, Endpoint(target).1, data)));
    }
  }
}
