/** The user service: registration with a unique email, login against a stored
    password hash, and lookups. Hashing, hash checking and token generation are
    the service's collaborators and are given to it as functions. */
module Users {
  import opened Wrappers
  import opened JavaInt
  import Repository
  import Seqs

  /** A stored user. `password` holds what the encoder made of the raw password. */
  datatype User = User(id: int, name: string, email: string, phoneNumber: string, password: string,
                       active: bool, avatarBytes: Option<seq<byte>>, avatarFileName: Option<string>,
                       role: string)

  /** The wire form; `avatar` is the avatar's content when there is one (its Base64 text, in the source). */
  datatype UserDto = UserDto(id: int, name: string, email: string, phoneNumber: string, role: string,
                             avatar: Option<seq<byte>>)

  datatype RegisterRequest = RegisterRequest(name: string, email: string, phoneNumber: string, password: string)
  datatype LoginRequest = LoginRequest(email: string, password: string)
  datatype AuthResponse = AuthResponse(user: UserDto, token: string)

  /** The role every new user gets. */
  const DefaultRole := "ROLE_USER"

  const EmailTaken := "Пользователь с таким email уже есть!"
  const UserNotFound := "Пользователь не найден!"
  const WrongPassword := "Неверный пароль!"
  const NoSuchUser := "Нет такого пользователя"

  function IdOf(u: User): int { u.id }
  function EmailOf(u: User): string { u.email }

  /** `toDto`: id, name, email, phone and role as stored, and the avatar when there is one;
      the password never leaves the service. */
  function ToDto(u: User): (d: UserDto)
    ensures d.id == u.id && d.name == u.name && d.email == u.email
    ensures d.phoneNumber == u.phoneNumber && d.role == u.role
    ensures d.avatar == u.avatarBytes
  {
    UserDto(u.id, u.name, u.email, u.phoneNumber, u.role, u.avatarBytes)
  }

  /** The user repository and the service on it, with its password encoder and token generator. */
  class UserService {
    var users: map<int, User>
    var nextId: nat
    /** `passwordEncoder.encode`. */
    const encode: string -> string
    /** `passwordEncoder.matches(raw, stored)`. */
    const matches: (string, string) -> bool
    /** `jwtUtil.generateToken(email)`. */
    const generateToken: string -> string

    /** Ids as assigned by the repository, and no two users share an email. */
    ghost predicate Valid()
      reads this
    {
      && 1 <= nextId
      && Repository.Keyed(users, nextId, IdOf)
      && Repository.UniqueBy(users, EmailOf)
    }

    constructor (encode: string -> string, matches: (string, string) -> bool, generateToken: string -> string)
      ensures Valid() && users == map[] && nextId == 1
      ensures this.encode == encode && this.matches == matches && this.generateToken == generateToken
    {
      users := map[];
      nextId := 1;
      this.encode := encode;
      this.matches := matches;
      this.generateToken := generateToken;
    }

    /** `userRepository.findByEmail(email)`, as the id of the user. */
    function UserByEmail(email: string): Option<int>
      reads this
    {
      Repository.FindBy(users, EmailOf, email, nextId)
    }

    /** What `buildAuthResponse` makes of a user. */
    function AuthFor(u: User): (a: AuthResponse)
      ensures a.user == ToDto(u) && a.token == generateToken(u.email)
    {
      AuthResponse(ToDto(u), generateToken(u.email))
    }

    /** `register`: a taken email fails and saves nothing; otherwise the user is saved
        with the encoded password, active, without avatar and with the default role. */
    method Register(request: RegisterRequest) returns (r: Result<AuthResponse>)
      requires Valid()
      modifies this
      ensures Valid()
      ensures (exists k :: k in old(users) && old(users)[k].email == request.email) ==>
        r == Err(EmailTaken) && users == old(users) && nextId == old(nextId)
      ensures (forall k :: k in old(users) ==> old(users)[k].email != request.email) ==>
        var id := old(nextId);
        var u := User(id, request.name, request.email, request.phoneNumber, encode(request.password),
                      true, None, None, DefaultRole);
        && users == old(users)[id := u]
        && nextId == id + 1
        && r == Ok(AuthResponse(ToDto(u), generateToken(request.email)))
    {
      if UserByEmail(request.email).Some? {
        return Err(EmailTaken);
      }
      var id := nextId;
      var u := User(id, request.name, request.email, request.phoneNumber, encode(request.password),
                    true, None, None, DefaultRole);
      Repository.UniqueAfterInsert(users, EmailOf, nextId, u);
      users := users[id := u];
      nextId := nextId + 1;
      r := Ok(AuthFor(u));
    }

    /** `login`: an unknown email is "not found", a password the stored hash does not
        match is "wrong password", and otherwise the user's DTO with a token for their email. */
    function Login(request: LoginRequest): (r: Result<AuthResponse>)
      reads this
      requires Valid()
      ensures r == Err(UserNotFound) <==> forall k :: k in users ==> users[k].email != request.email
      ensures r == Err(WrongPassword) <==>
        exists k :: k in users && users[k].email == request.email && !matches(request.password, users[k].password)
      ensures r.Ok? <==>
        exists k :: k in users && users[k].email == request.email && matches(request.password, users[k].password)
      ensures r.Ok? ==> exists k :: k in users && users[k].email == request.email && r.value == AuthFor(users[k])
    {
      match UserByEmail(request.email)
      case None => Err(UserNotFound)
      case Some(k) =>
        var u := users[k];
        if !matches(request.password, u.password) then Err(WrongPassword) else Ok(AuthFor(u))
    }

    /** `getUser`: the stored user's DTO, or "no such user". */
    function GetUser(id: int): (r: Result<UserDto>)
      reads this
      ensures r.Ok? <==> id in users
      ensures r.Ok? ==> r.value == ToDto(users[id])
      ensures r.Err? ==> r.message == NoSuchUser
    {
      if id in users then Ok(ToDto(users[id])) else Err(NoSuchUser)
    }

    /** `getAllUsers`. */
    function GetAllUsers(): (r: seq<UserDto>)
      reads this
      ensures forall d :: d in r ==> exists k :: k in users && ToDto(users[k]) == d
    {
      Seqs.MapSeq(Repository.Listing(users, nextId), ToDto)
    }

    /** `getAllUsers` gives the DTO of every stored user and nothing else, in strictly
        ascending id order (so each user once), and nothing for an empty store. */
    lemma GetAllUsersExact()
      requires Valid()
      ensures forall d :: d in GetAllUsers() <==> exists k :: k in users && ToDto(users[k]) == d
      ensures forall i, j :: 0 <= i < j < |GetAllUsers()| ==> GetAllUsers()[i].id < GetAllUsers()[j].id
      ensures users == map[] ==> GetAllUsers() == []
    {
      var all := Repository.Listing(users, nextId);
      Repository.ListingMembers(users, nextId);
      Repository.ListingAscending(users, nextId, IdOf, nextId);
      forall d ensures d in GetAllUsers() <==> exists k :: k in users && ToDto(users[k]) == d {
        if d in GetAllUsers() {
          var i :| 0 <= i < |all| && GetAllUsers()[i] == d;
          assert all[i] in all;
        }
        if exists k :: k in users && ToDto(users[k]) == d {
          var k :| k in users && ToDto(users[k]) == d;
          assert 0 <= k < nextId;
          assert users[k] in all;
          var i :| 0 <= i < |all| && all[i] == users[k];
          assert GetAllUsers()[i] == d;
        }
      }
      if users == map[] {
        Repository.ListingOfEmpty(users, nextId);
      }
    }
  }

  /** A service whose encoder prefixes "hash:", whose matcher compares against that,
      and whose tokens are "jwt:" and the email, holding the user Ann. */
  method ServiceWithAnn() returns (service: UserService, registered: Result<AuthResponse>)
    ensures fresh(service) && service.Valid()
    ensures service.users == map[1 := User(1, "Ann", "ann@mail.com", "555", "hash:secret", true, None, None, DefaultRole)]
    ensures service.matches("secret", "hash:secret") && !service.matches("oops", "hash:secret")
    ensures service.generateToken("ann@mail.com") == "jwt:ann@mail.com"
    ensures registered == Ok(AuthResponse(UserDto(1, "Ann", "ann@mail.com", "555", DefaultRole, None), "jwt:ann@mail.com"))
  {
    service := new UserService((raw: string) => "hash:" + raw,
                               (raw: string, stored: string) => stored == "hash:" + raw,
                               (email: string) => "jwt:" + email);
    registered := service.Register(RegisterRequest("Ann", "ann@mail.com", "555", "secret"));
    assert service.encode("secret") == "hash:secret";
    assert service.generateToken("ann@mail.com") == "jwt:ann@mail.com";
    assert "hash:oops" != "hash:secret" by {
      assert ("hash:secret")[5] != ("hash:oops")[5];
    }
  }

  /** With an encoder whose hashes `matches` accepts, registering a new email and then
      logging in with the same password gives the response registration gave. */
  method LoginAfterRegister(service: UserService, request: RegisterRequest)
    returns (registered: Result<AuthResponse>, ok: Result<AuthResponse>)
    requires service.Valid()
    requires forall raw :: service.matches(raw, service.encode(raw))
    requires forall k :: k in service.users ==> service.users[k].email != request.email
    modifies service
    ensures registered.Ok? && ok == registered
  {
    registered := service.Register(request);
    ok := service.Login(LoginRequest(request.email, request.password));
    var id := service.nextId - 1;
    assert id in service.users && service.users[id].email == request.email;
    assert service.matches(request.password, service.users[id].password);
    forall k | k in service.users && service.users[k].email == request.email ensures k == id {
      assert Repository.UniqueBy(service.users, EmailOf);
    }
  }

  /** The wrong password is refused, and the same email cannot register twice. */
  method WrongPasswordAndDuplicate() returns (wrong: Result<AuthResponse>, again: Result<AuthResponse>)
    ensures wrong == Err(WrongPassword)
    ensures again == Err(EmailTaken)
  {
    var service, _ := ServiceWithAnn();
    wrong := service.Login(LoginRequest("ann@mail.com", "oops"));
    assert 1 in service.users && service.users[1].email == "ann@mail.com";
    again := service.Register(RegisterRequest("Bob", "ann@mail.com", "556", "other"));
  }
}
