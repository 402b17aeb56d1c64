/**
 * `build_dataset(args)`: which TN3K loaders a run configuration builds and
 * which of them it returns.
 */
module Factory {
  import opened Wrappers
  import opened Tn3k

  /** The run configuration fields the factory reads. */
  datatype Args = Args(manner: string, dataset: string, root: string, expID: int, ratio: int)

  /** The value returned: one test loader, or the triple
      (labeled train, unlabeled train or None, valid). */
  datatype Built =
    | TestSet(test: Fields)
    | TrainingSets(train: Fields, unlabeled: Option<Fields>, valid: Fields)

  // The constructor calls the factory makes. Only the training loaders
  // receive `ratio`; the others get the default 10.

  function TestCall(args: Args): Params {
    Params(args.root, args.expID, "test", 10, "label", None)
  }

  function TrainCall(args: Args): Params {
    Params(args.root, args.expID, "train", args.ratio, "label", None)
  }

  function ValidCall(args: Args): Params {
    Params(args.root, args.expID, "valid", 10, "label", None)
  }

  function UnlabeledCall(args: Args): Params {
    Params(args.root, args.expID, "train", args.ratio, "unlabel", None)
  }

  predicate WantsUnlabeled(args: Args) {
    args.manner == "semi" || args.manner == "self"
  }

  /** `build_dataset(args)`. A dataset other than "tn3k" leaves the returned
      variable unbound; otherwise the constructors run in source order (train,
      valid, test, then unlabeled) and the first one to raise aborts. */
  function Build(args: Args, env: Env): (r: Result<Built, Error>)
    ensures args.dataset != "tn3k" ==> r.Failure? && r.error.UnboundLocal?
    ensures r.Success? ==> (r.value.TestSet? <==> args.manner == "test")
    ensures r.Success? && r.value.TestSet? ==> r.value.test.mode == "test"
    ensures r.Success? && r.value.TrainingSets? ==>
      && r.value.train.mode == "train" && r.value.train.sign == "label"
      && r.value.valid.mode == "valid"
      && (r.value.unlabeled.Some? <==> WantsUnlabeled(args))
      && (r.value.unlabeled.Some? ==> r.value.unlabeled.value.mode == "train" && r.value.unlabeled.value.sign == "unlabel")
  {
    if args.manner == "test" then
      if args.dataset == "tn3k" then
        var test :- Construct(TestCall(args), env);
        Success(TestSet(test))
      else Failure(UnboundLocal("test_data"))
    else if args.dataset == "tn3k" then
      var train :- Construct(TrainCall(args), env);
      var valid :- Construct(ValidCall(args), env);
      // The test loader built here as well is discarded, and building a
      // test loader never fails (see `Construct`), so it plays no part.
      if WantsUnlabeled(args) then
        var unlabeled :- Construct(UnlabeledCall(args), env);
        Success(TrainingSets(train, Some(unlabeled), valid))
      else Success(TrainingSets(train, None, valid))
    else Failure(UnboundLocal("train_data"))
  }

  /** `ratio` never influences a loader: the constructor ignores it. */
  lemma RatioIgnored(p: Params, ratio: int, env: Env)
    ensures Construct(p, env) == Construct(p.(ratio := ratio), env)
  {
  }

  /** The test-mode manner returns exactly the test loader. */
  lemma TestMannerBuildsTestLoader(args: Args, env: Env)
    requires args.manner == "test" && args.dataset == "tn3k"
    ensures Build(args, env) == Success(TestSet(Construct(TestCall(args), env).value))
  {
    TestListing(TestCall(args), env);
  }

  /** In every other manner the result is the triple of the labeled train,
      the unlabeled train (for "semi" and "self" only) and the valid loaders;
      the test loader built alongside never causes a failure and is dropped.
      The build succeeds exactly when the returned loaders can be built. */
  lemma TrainingMannerBuildsTriple(args: Args, env: Env)
    requires args.manner != "test" && args.dataset == "tn3k"
    ensures var train := Construct(TrainCall(args), env);
      var valid := Construct(ValidCall(args), env);
      var unlabeled := Construct(UnlabeledCall(args), env);
      && (Build(args, env).Success? <==>
           train.Success? && valid.Success? && (WantsUnlabeled(args) ==> unlabeled.Success?))
      && (Build(args, env).Success? ==>
           Build(args, env).value == TrainingSets(train.value,
                                                  if WantsUnlabeled(args) then Some(unlabeled.value) else None,
                                                  valid.value))
  {
    TestListing(TestCall(args), env);
  }

  /** Every loader gets the configured root and expID; only the training ones
      get the configured ratio. */
  lemma CallsCarryConfiguration(args: Args)
    ensures forall p :: p in [TestCall(args), TrainCall(args), ValidCall(args), UnlabeledCall(args)] ==>
      p.root == args.root && p.expID == args.expID && p.transform.None?
    ensures TrainCall(args).ratio == args.ratio && UnlabeledCall(args).ratio == args.ratio
    ensures TestCall(args).ratio == 10 && ValidCall(args).ratio == 10
  {
  }
}
