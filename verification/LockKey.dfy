/**
 * The key of a task's lock: a prefix and the digest of the task's name followed by
 * the JSON texts of its arguments.
 */
module LockKey {
  import opened Options
  import opened JsonText

  type Args = seq<Json>
  type Kwargs = map<string, Json>

  /** `args or []`. */
  function OrNoArgs(args: Option<Args>): Args {
    if args.Some? then args.value else []
  }

  function OrNoKwargs(kwargs: Option<Kwargs>): Kwargs {
    if kwargs.Some? then kwargs.value else map[]
  }

  /** What is digested. */
  ghost function LockText(name: string, args: Option<Args>, kwargs: Option<Kwargs>): string {
    name + Text(Array(OrNoArgs(args))) + Text(Object(OrNoKwargs(kwargs)))
  }

  /** `util.generate_lock`, with the digest as a parameter. */
  ghost function GenerateLock(md5: string -> string, prefix: string, name: string, args: Option<Args>,
                              kwargs: Option<Kwargs>): string {
    prefix + md5(LockText(name, args, kwargs))
  }

  /** `Singleton.generate_lock` of a task without `unique_on`, which fills in what is missing once more. */
  ghost function TaskLock(md5: string -> string, prefix: string, name: string, args: Option<Args>,
                          kwargs: Option<Kwargs>): string {
    GenerateLock(md5, prefix, name, Some(OrNoArgs(args)), Some(OrNoKwargs(kwargs)))
  }

  lemma NameIsNotLonger(m: string, x: string, n: string, y: string)
    requires '[' !in m && m + x == n + y && y != "" && y[0] == '['
    ensures |n| >= |m|
  {
    if |n| < |m| {
      NextChar(n, y, m, x);
      assert false;
    }
  }

  lemma NameTells(m: string, x: string, n: string, y: string)
    requires '[' !in m && '[' !in n && x != "" && x[0] == '[' && y != "" && y[0] == '[' && m + x == n + y
    ensures m == n && x == y
  {
    NameIsNotLonger(m, x, n, y);
    NameIsNotLonger(n, y, m, x);
    SplitAt(m, x, n, y);
  }

  ghost predicate Encodable(args: Option<Args>, kwargs: Option<Kwargs>) {
    WellFormed(Array(OrNoArgs(args))) && WellFormed(Object(OrNoKwargs(kwargs)))
  }

  /**
   * The text before hashing is unambiguous: for names without an opening bracket it is
   * the same exactly when name, arguments and keyword arguments are the same JSON values,
   * missing ones counting as empty.
   */
  lemma LockTextTells(m: string, a: Option<Args>, k: Option<Kwargs>, n: string, b: Option<Args>, l: Option<Kwargs>)
    requires '[' !in m && '[' !in n && Encodable(a, k) && Encodable(b, l)
    ensures LockText(m, a, k) == LockText(n, b, l) <==>
            m == n && OrNoArgs(a) == OrNoArgs(b) && OrNoKwargs(k) == OrNoKwargs(l)
  {
    if LockText(m, a, k) == LockText(n, b, l) {
      var ta, tk := Text(Array(OrNoArgs(a))), Text(Object(OrNoKwargs(k)));
      var tb, tl := Text(Array(OrNoArgs(b))), Text(Object(OrNoKwargs(l)));
      Regroup(m, ta, tk);
      Regroup(n, tb, tl);
      TextHead(Array(OrNoArgs(a)));
      TextHead(Array(OrNoArgs(b)));
      NameTells(m, ta + tk, n, tb + tl);
      TextHead(Object(OrNoKwargs(k)));
      TextHead(Object(OrNoKwargs(l)));
      TextTells(Array(OrNoArgs(a)), tk, Array(OrNoArgs(b)), tl);
      assert tk + "" == tk && tl + "" == tl;
      TextTells(Object(OrNoKwargs(k)), "", Object(OrNoKwargs(l)), "");
    }
  }

  /**
   * Two calls get the same lock exactly when they are calls of one task with the same
   * arguments, as far as the digest does not collide.
   */
  lemma SameLockIffSameCall(md5: string -> string, prefix: string, m: string, a: Option<Args>, k: Option<Kwargs>,
                            n: string, b: Option<Args>, l: Option<Kwargs>)
    requires forall s, t :: md5(s) == md5(t) ==> s == t
    requires '[' !in m && '[' !in n && Encodable(a, k) && Encodable(b, l)
    ensures TaskLock(md5, prefix, m, a, k) == TaskLock(md5, prefix, n, b, l) <==>
            m == n && OrNoArgs(a) == OrNoArgs(b) && OrNoKwargs(k) == OrNoKwargs(l)
  {
    var sa, sk, sb, sl := Some(OrNoArgs(a)), Some(OrNoKwargs(k)), Some(OrNoArgs(b)), Some(OrNoKwargs(l));
    LockTextTells(m, sa, sk, n, sb, sl);
    if TaskLock(md5, prefix, m, a, k) == TaskLock(md5, prefix, n, b, l) {
      SplitAt(prefix, md5(LockText(m, sa, sk)), prefix, md5(LockText(n, sb, sl)));
    }
  }

  /**
   * `apply_async` fills in missing arguments before it takes the lock; a worker that
   * reports the same call, with missing or with empty arguments, releases that lock.
   */
  lemma ReleaseFindsLock(md5: string -> string, prefix: string, name: string, args: Option<Args>,
                         kwargs: Option<Kwargs>, reportedArgs: Option<Args>, reportedKwargs: Option<Kwargs>)
    requires OrNoArgs(reportedArgs) == OrNoArgs(args) && OrNoKwargs(reportedKwargs) == OrNoKwargs(kwargs)
    ensures TaskLock(md5, prefix, name, Some(OrNoArgs(args)), Some(OrNoKwargs(kwargs)))
         == TaskLock(md5, prefix, name, reportedArgs, reportedKwargs)
  {
  }

  /** The key spelled out: the prefix, then the digest of name, arguments and keyword arguments. */
  lemma LockSpelled(md5: string -> string, prefix: string, name: string, args: Args, kwargs: Kwargs)
    ensures TaskLock(md5, prefix, name, Some(args), Some(kwargs))
         == prefix + md5(name + Text(Array(args)) + Text(Object(kwargs)))
    ensures TaskLock(md5, prefix, name, None, None) == prefix + md5(name + "[]" + "{}")
  {
    EmptyTexts();
  }
}
