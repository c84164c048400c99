/** The API's relation-toggling actions: `UserViewSet.subscribe`, which
    creates or deletes a Subscribe row and maps each failure to a response,
    and `RecipeViewSet.favorite`, both as written and corrected. */
module Views {
  import opened Wrappers
  import opened Users
  import opened Recipes

  /** The two HTTP methods these actions are routed for. */
  datatype Verb = Post | Delete

  function VerbName(v: Verb): (name: string) {
    match v
    case Post => "POST"
    case Delete => "DELETE"
  }

  const HTTP_201_CREATED := 201
  const HTTP_204_NO_CONTENT := 204
  const HTTP_400_BAD_REQUEST := 400
  const HTTP_404_NOT_FOUND := 404

  datatype Body =
    | NoBody
    | Errors(errors: string)          // {'errors': ...}
    | NotFoundDetail                  // get_object_or_404's Http404, rendered by the framework
    | SubscribedAuthor(author: User)  // the author, serialized by SubscribeSerializer

  datatype Response = Response(status: nat, body: Body)

  /** An exception that leaves the view uncaught. `AttributeError` is what
      an anonymous requester raises: the framework's AnonymousUser has no
      `subscriptions` or `favorite` relation. */
  datatype Exception = IntegrityError(kind: IntegrityKind) | ObjectDoesNotExist | AttributeError

  datatype Outcome = Respond(response: Response) | Raise(exception: Exception)

  /** DOES_NOT_EXIST_SUBSCRIBE_ERROR = 'Пользователь {} не подписан на автора {}.' */
  function DoesNotExistSubscribeError(user: string, author: string): (message: string) {
    "Пользователь " + user + " не подписан на автора " + author + "."
  }

  const SelfSubscribeError := "Нельзя подписаться на самого себя."

  /** UNIQUE_SUBSCRIBE_ERROR = 'Пользователь {} уже подписан на автора {}.' */
  function UniqueSubscribeError(user: string, author: string): (message: string) {
    "Пользователь " + user + " уже подписан на автора " + author + "."
  }

  /** The User and Subscribe tables, as `UserViewSet` sees them. */
  class UserDirectory {
    var users: map<UserId, User>
    var subscriptions: set<Follow>

    ghost predicate Valid()
      reads this
    {
      UsersValid(users) && SubscriptionsValid(users, subscriptions)
    }

    constructor (users: map<UserId, User>)
      requires UsersValid(users)
      ensures Valid() && this.users == users && subscriptions == {}
    {
      this.users := users;
      subscriptions := {};
    }

    /** `subscriptions.create(author=author)`: one INSERT, which the database
        refuses with the violated constraint's kind. */
    method CreateSubscription(f: Follow) returns (violation: Option<IntegrityKind>)
      requires Valid()
      modifies this`subscriptions
      ensures Valid()
      ensures violation == InsertViolation(users, old(subscriptions), f)
      ensures subscriptions == if violation == None then old(subscriptions) + {f} else old(subscriptions)
    {
      violation := InsertViolation(users, subscriptions, f);
      if violation == None {
        InsertKeepsSubscriptionsValid(users, subscriptions, f);
        subscriptions := subscriptions + {f};
      }
    }

    /** POST or DELETE /users/{author_id}/subscribe/ by `requester`, which
        is None for an anonymous request: the view set declares no permission
        classes of its own. */
    method Subscribe(requester: Option<User>, authorId: UserId, verb: Verb) returns (out: Outcome)
      requires Valid()
      modifies this`subscriptions
      ensures Valid()
      // No such author: 404, nothing changes.
      ensures authorId !in users ==>
        out == Respond(Response(HTTP_404_NOT_FOUND, NotFoundDetail)) && subscriptions == old(subscriptions)
      // An anonymous requester has no subscriptions to get or create from.
      ensures authorId in users && requester.None? ==>
        out == Raise(AttributeError) && subscriptions == old(subscriptions)
      // DELETE of an existing pair removes exactly that pair.
      ensures authorId in users && requester.Some? && verb == Delete
              && Follow(requester.value.id, authorId) in old(subscriptions) ==>
        out == Respond(Response(HTTP_204_NO_CONTENT, NoBody))
        && subscriptions == old(subscriptions) - {Follow(requester.value.id, authorId)}
      // DELETE of a missing pair: 400 naming both users, nothing changes.
      ensures authorId in users && requester.Some? && verb == Delete
              && Follow(requester.value.id, authorId) !in old(subscriptions) ==>
        out == Respond(Response(HTTP_400_BAD_REQUEST,
                 Errors(DoesNotExistSubscribeError(requester.value.username, users[authorId].username))))
        && subscriptions == old(subscriptions)
      // POST on oneself: 400 with the fixed message, whatever the other pairs are.
      ensures authorId in users && requester.Some? && verb == Post && requester.value.id == authorId ==>
        out == Respond(Response(HTTP_400_BAD_REQUEST, Errors(SelfSubscribeError)))
        && subscriptions == old(subscriptions)
      // POST of an existing pair: 400 naming both users, nothing changes.
      ensures authorId in users && requester.Some? && verb == Post && requester.value.id != authorId
              && Follow(requester.value.id, authorId) in old(subscriptions) ==>
        out == Respond(Response(HTTP_400_BAD_REQUEST,
                 Errors(UniqueSubscribeError(requester.value.username, users[authorId].username))))
        && subscriptions == old(subscriptions)
      // POST of a new pair: 201 with the author, exactly that pair is added.
      ensures authorId in users && requester.Some? && verb == Post && requester.value.id != authorId
              && Follow(requester.value.id, authorId) !in old(subscriptions) && requester.value.id in users ==>
        out == Respond(Response(HTTP_201_CREATED, SubscribedAuthor(users[authorId])))
        && subscriptions == old(subscriptions) + {Follow(requester.value.id, authorId)}
      // Any other integrity failure (the subscriber's row is gone) is re-raised.
      ensures authorId in users && requester.Some? && verb == Post && requester.value.id != authorId
              && Follow(requester.value.id, authorId) !in old(subscriptions) && requester.value.id !in users ==>
        out == Raise(IntegrityError(OtherViolation)) && subscriptions == old(subscriptions)
    {
      if authorId !in users {
        return Respond(Response(HTTP_404_NOT_FOUND, NotFoundDetail));
      }
      if requester.None? {
        return Raise(AttributeError);
      }
      var user := requester.value;
      var author := users[authorId];
      var f := Follow(user.id, author.id);
      if verb == Delete {
        if f !in subscriptions {
          // `.get(author=author)` raised ObjectDoesNotExist
          return Respond(Response(HTTP_400_BAD_REQUEST,
                   Errors(DoesNotExistSubscribeError(user.username, author.username))));
        }
        subscriptions := subscriptions - {f};
        return Respond(Response(HTTP_204_NO_CONTENT, NoBody));
      }
      var violation := CreateSubscription(f);
      match violation {
        case None =>
          out := Respond(Response(HTTP_201_CREATED, SubscribedAuthor(author)));
        case Some(kind) =>
          if kind == UniqueViolation {
            out := Respond(Response(HTTP_400_BAD_REQUEST,
                     Errors(UniqueSubscribeError(user.username, author.username))));
          } else if kind == CheckViolation {
            out := Respond(Response(HTTP_400_BAD_REQUEST, Errors(SelfSubscribeError)));
          } else {
            out := Raise(IntegrityError(kind));
          }
      }
    }
  }

  /** One Favorite row: `user` has favorited `recipe`; unique per pair. */
  datatype FavoriteRow = FavoriteRow(user: UserId, recipe: RecipeId)

  /** The name the router gives `RecipeViewSet.favorite` as `self.action`. */
  const FavoriteAction := "favorite"

  /** The branch test of the favorite action as written: `self.action == 'DELETE'`. */
  predicate TakesDeleteBranch(action: string) {
    action == "DELETE"
  }

  /** Under its routed action name the favorite view never takes the delete
      branch, whereas the request's method name would select it for DELETE only. */
  lemma FavoriteNeverDeletes()
    ensures !TakesDeleteBranch(FavoriteAction)
    ensures TakesDeleteBranch(VerbName(Delete)) && !TakesDeleteBranch(VerbName(Post))
  {
  }

  /** The Recipe ids and the Favorite table, as `RecipeViewSet` sees them. */
  class FavoriteStore {
    var recipes: set<RecipeId>
    var favorites: set<FavoriteRow>

    ghost predicate Valid()
      reads this
    {
      forall f :: f in favorites ==> f.recipe in recipes
    }

    constructor (recipes: set<RecipeId>)
      ensures Valid() && this.recipes == recipes && favorites == {}
    {
      this.recipes := recipes;
      favorites := {};
    }

    /** `favorite.create(recipe=recipe)`: an INSERT the unique constraint may refuse. */
    method CreateFavorite(f: FavoriteRow) returns (violation: Option<IntegrityKind>)
      requires Valid() && f.recipe in recipes
      modifies this`favorites
      ensures Valid()
      ensures violation == (if f in old(favorites) then Some(UniqueViolation) else None)
      ensures favorites == if violation == None then old(favorites) + {f} else old(favorites)
    {
      if f in favorites {
        violation := Some(UniqueViolation);
      } else {
        violation := None;
        favorites := favorites + {f};
      }
    }

    /** `favorite.get(recipe=recipe).delete()`: raises when there is no such row. */
    method DeleteFavorite(f: FavoriteRow) returns (found: bool)
      requires Valid()
      modifies this`favorites
      ensures Valid()
      ensures found == (f in old(favorites))
      ensures favorites == old(favorites) - {f}
    {
      found := f in favorites;
      favorites := favorites - {f};
    }

    /** POST or DELETE /recipes/{recipe_id}/favorite/ as written: the branch
        is chosen by comparing the action name, not the HTTP method, with
        'DELETE'. The router passes FavoriteAction, so both methods create a
        row (or fail on the unique constraint, which is not caught). As in
        `Subscribe`, `requester` is None for an anonymous request. */
    method FavoriteAsWritten(requester: Option<UserId>, recipeId: RecipeId, verb: Verb, action: string)
      returns (out: Outcome)
      requires Valid()
      modifies this`favorites
      ensures Valid()
      ensures recipeId !in recipes ==>
        out == Respond(Response(HTTP_404_NOT_FOUND, NotFoundDetail)) && favorites == old(favorites)
      ensures recipeId in recipes && requester.None? ==>
        out == Raise(AttributeError) && favorites == old(favorites)
      ensures recipeId in recipes && requester.Some? && !TakesDeleteBranch(action) ==>
        if FavoriteRow(requester.value, recipeId) in old(favorites) then
          out == Raise(IntegrityError(UniqueViolation)) && favorites == old(favorites)
        else
          out == Respond(Response(HTTP_201_CREATED, NoBody))
          && favorites == old(favorites) + {FavoriteRow(requester.value, recipeId)}
      ensures recipeId in recipes && requester.Some? && TakesDeleteBranch(action) ==>
        favorites == old(favorites) - {FavoriteRow(requester.value, recipeId)}
        && out == if FavoriteRow(requester.value, recipeId) in old(favorites)
                  then Respond(Response(HTTP_204_NO_CONTENT, NoBody))
                  else Raise(ObjectDoesNotExist)
    {
      if recipeId !in recipes {
        return Respond(Response(HTTP_404_NOT_FOUND, NotFoundDetail));
      }
      if requester.None? {
        return Raise(AttributeError);
      }
      var f := FavoriteRow(requester.value, recipeId);
      if TakesDeleteBranch(action) {
        var found := DeleteFavorite(f);
        out := if found then Respond(Response(HTTP_204_NO_CONTENT, NoBody)) else Raise(ObjectDoesNotExist);
        return;
      }
      var violation := CreateFavorite(f);
      out := if violation == None then Respond(Response(HTTP_201_CREATED, NoBody))
             else Raise(IntegrityError(violation.value));
    }

    /** The favorite action as evidently intended: the branch is chosen by
        the HTTP method, so DELETE removes the row. */
    method Favorite(requester: Option<UserId>, recipeId: RecipeId, verb: Verb) returns (out: Outcome)
      requires Valid()
      modifies this`favorites
      ensures Valid()
      ensures recipeId !in recipes ==>
        out == Respond(Response(HTTP_404_NOT_FOUND, NotFoundDetail)) && favorites == old(favorites)
      ensures recipeId in recipes && requester.None? ==>
        out == Raise(AttributeError) && favorites == old(favorites)
      ensures recipeId in recipes && requester.Some? && verb == Post ==>
        if FavoriteRow(requester.value, recipeId) in old(favorites) then
          out == Raise(IntegrityError(UniqueViolation)) && favorites == old(favorites)
        else
          out == Respond(Response(HTTP_201_CREATED, NoBody))
          && favorites == old(favorites) + {FavoriteRow(requester.value, recipeId)}
      ensures recipeId in recipes && requester.Some? && verb == Delete ==>
        favorites == old(favorites) - {FavoriteRow(requester.value, recipeId)}
        && out == if FavoriteRow(requester.value, recipeId) in old(favorites)
                  then Respond(Response(HTTP_204_NO_CONTENT, NoBody))
                  else Raise(ObjectDoesNotExist)
    {
      out := FavoriteAsWritten(requester, recipeId, verb, VerbName(verb));
    }
  }
}
