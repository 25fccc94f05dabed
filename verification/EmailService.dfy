/** The e-mail service as the source writes it, over its own entries of the Redis store. */
module EmailService {
  import opened EmailCodes
  import opened Wrappers

  /** The fields of the stored JSON record. */
  datatype Record = Record(code: string, email: string, attempts: nat)

  class Redis {
    var entries: map<string, Entry>
    var now: nat

    function Contents(): State
      reads this
    {
      State(entries, now)
    }

    constructor ()
      ensures Contents() == State(map[], 0)
    {
      entries, now := map[], 0;
    }

    method Advance(milliseconds: nat)
      modifies this
      ensures Contents() == Next(old(Contents()), Wait(milliseconds)).0
    {
      now := now + milliseconds;
    }

    method SetEx(key: string, ttl: nat, data: Record)
      modifies this`entries
      ensures entries == old(entries)[key := Entry(data.code, data.email, data.attempts, now + ttl * 1000)]
    {
      entries := entries[key := Entry(data.code, data.email, data.attempts, now + ttl * 1000)];
    }

    method Get(key: string) returns (data: Option<Record>)
      ensures data == if key in entries && now < entries[key].deadline
                      then Some(Record(entries[key].code, entries[key].email, entries[key].attempts)) else None
    {
      if key in entries && now < entries[key].deadline {
        return Some(Record(entries[key].code, entries[key].email, entries[key].attempts));
      }
      return None;
    }

    method Del(key: string)
      modifies this`entries
      ensures entries == old(entries) - {key}
    {
      entries := entries - {key};
    }
  }

  class EmailService {
    const redisService: Redis

    constructor (redisService: Redis)
      ensures this.redisService == redisService
    {
      this.redisService := redisService;
    }

    /** `code` is the number drawn; whether the mail could be queued changes only the message. */
    method SendVerificationCode(wallet: string, email: string, code: string)
      modifies redisService
      ensures redisService.Contents() == Next(old(redisService.Contents()), Send(wallet, email, code)).0
    {
      redisService.SetEx(Key(wallet), 600, Record(code, email, 0));
    }

    /** `reading` is the answer of the `ttl` command. */
    method VerifyCode(wallet: string, code: string, reading: int) returns (reply: Reply)
      modifies redisService
      ensures (redisService.Contents(), reply) == Next(old(redisService.Contents()), Check(wallet, code, reading))
    {
      var cachedData := redisService.Get(Key(wallet));
      if cachedData.None? {
        return Missing;
      }
      var cached := cachedData.value;
      if cached.attempts >= 3 {
        redisService.Del(Key(wallet));
        return TooManyAttempts;
      }
      if cached.code != code {
        cached := cached.(attempts := cached.attempts + 1);
        redisService.SetEx(Key(wallet), if reading > 0 then reading else 600, cached);
        return Wrong(3 - cached.attempts);
      }
      redisService.Del(Key(wallet));
      return Confirmed(cached.email);
    }
  }
}
