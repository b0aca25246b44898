# Child IRC services: a verified model

Child is a services daemon for IRC networks. It keeps nicks, channels, accounts, access lists and servers in linked
in-memory registries while protocol events and service commands arrive. This project models those registries and the
code around them in Dafny and proves what they keep.

| part | modules | modelled from |
|---|---|---|
| containers | `LList`, `RingFamily`, `Hashing`, `Hashmap`, `OrderedMap` | `src/llist.h`, `src/hashmap.c`, `src/hashmap.h`, `src/core.c` |
| network | `Lists`, `Network`, `NetSplit`, `Membership`, `Events`, `Cascades`, `NetRuns`, `Suspension`, `Effects`, `Origins`, `Records`, `Timers`, `NetExamples`, `Core` | `src/nick.c`, `src/user.c`, `src/channel.c`, `src/server.c`, `src/parseline.c`, `src/modules/m_nick.c`, `src/modules/m_oper.c`, `src/modules/sasl.c` |
| channel access | `Uflags`, `Access`, `Ownership`, `FlagRuns`, `AccessRuns`, `Decisions`, `AccessExamples`, `CflagLists`, `Registry` | `src/channel.c`, `src/user.c`, `src/modules/m_chan.c`, `src/modules/m_nick.c` |
| mode lines | `Mode`, `Letters` | `src/parseline.c` |
| message limiter | `Flood` | `src/parseline.c` |
| connection | `Framing`, `SendQueue` | `src/net.c`, `src/child.c` |
| SASL | `Base64`, `Sasl` | `src/base64.c`, `src/modules/sasl.c` |
| save and load | `Tables`, `Database`, `Restarts`, `RestartExamples` | `src/db.c`, `src/child.c` |

## How it is modelled

*Containers.* Links are heap objects; a ring is a list of them joined by their pointers. The hash table is a class
whose entries sit on a bucket ring and on the key ring at once. Every operation, growth included, is a method on these
pointers. `OrderedMap` states what the table is to its users.

*Network.* Every C struct that is allocated and freed while events arrive is a value in a store keyed by its pointer.
Reading a pointer that is not in the store is ill-formed, so the verified methods never use freed memory. The intrusive
lists are sequences, and the safe iterations keep their look-ahead cursor. Each handler is a method of the class `Core`
and is proved to do what a function on the whole state says; runs are runs of those functions. `Network.Inv` lists the
nine laws that hold between the registries. `Effects`, `Origins`, `Records` and `Timers` say, without those functions,
exactly what each event does to nicks, sessions, accounts, memberships, timers and servers.

*Channel access.* The relation between users and channels is a map from pairs to entries. `CflagLists` and `Registry`
store it the way the program does, each entry on the list of its user and on the list of its channel. `Decisions` says
who passes which check and what each command then does; `Letters` does the same for the letters of a MODE line.

Names are compared up to ASCII case in the program; from the network upwards they are taken in folded form. Strings are
sequences of characters, masks are 32-bit vectors, and Base64 works on bytes.

What comes from outside is a parameter: the time, the configuration and the administrators online at each event, the
pointers malloc returns, whether a password is right, which trust matches a host, whether two accounts are linked, what
the kernel reads or sends, and the order in which rows come back from a table. A line that names several channels or
nicks is a sequence of events, one for each; a kick by the services is a `Part` event.

## Where the code does less than it may seem

Each of these has its exact condition and, where it breaks an invariant, a run from the start of the program that
gets there.

* A JOIN of a channel the nick is on, the linked-account branch of a nick change, and OPER FORCEAUTH do not check what
  the invariants need. `Events.JoinKeeps`, `Events.NickChangedKeeps`, `Events.LoginKeeps` and `NetRuns.StepKeeps` say
  exactly when they are safe; `NetExamples.JoinsTwice` and `NetExamples.TakesTheAccount` are the runs.
* A UID line with a name that is in use dereferences a null pointer (`Core.Core.MUid`, `NetExamples.SameNameTwice`).
* Logging in through SASL prefers the account with the nick's own name to the account named in the SVID. The SVID is
  followed exactly when there is no such account or it is the same (`Events.SaslAccount`, `NetRuns.IntroducedAccount`);
  `NetExamples.SvidNotFollowed` is a run in which it is not.
* In level mode an owner may delete its own entry, after which the channel has no owner entry
  (`Ownership.AccessDeletedKeeps`, `AccessExamples.OwnerDeletesItself`). A super administrator may give F to a second
  account (`FlagRuns.FlagsChangedKeeps`, `AccessExamples.BossGivesF`).
* The test for a second co-owner in ACCESS ADD looks at levels, so a channel whose co-owner was named by flag gets two
  (`AccessRuns.StepCoowners`, `AccessExamples.TwoCoowners`); which of them inherits the channel then depends on the
  order of its list (`Registry.Registry.GetCoowner`).
* The tests of NICK LINK leave circles of three or more possible (`AccessRuns.LinkKeepsAcyclic`,
  `AccessRuns.CircleOfThree`); the checks that follow master links then do not end (`AccessRuns.EndsExactly`,
  `AccessRuns.CircleNeverEnds`, `AccessExamples.CircleClosed`).
* NICK LINK stores the name of the caller's nick, which need not be an account: a nick that is logged in and has changed
  its name, as in `NetExamples.HolderReached`, makes such a link. It is saved, its row is refused, and the program exits
  when it is started again (`AccessRuns.StepSlaves`, `Restarts.RestartAfterRun`, `RestartExamples.SlaveUnknown`).
* An owner that has deleted itself in level mode can be given an entry by its co-owner in flag mode, whose row is refused
  in the same way (`Database.LoadsReloaded`, `RestartExamples.OwnerComesBack`).
* A suspended account can get a session: an SVID, the linked-account branch of a nick change and OPER FORCEAUTH do not
  ask, and NICK LINK takes over the suspension of the master (`Suspension.StepQuiet`, `NetExamples.SuspendedWoken`).
* With STRICTOP a channel in flag mode takes op from whoever has the flag for it but no level, as a flag command makes
  them (`Letters.EntitledInFlagMode`, `Letters.FlagHolderRefused`).
* Half ops may change the topic in flag mode and not in level mode; otherwise an entry made with a level allows the same
  in both (`Decisions.ModesAgree`). A level from 0 up to that for invitations gives the flag of those who are kicked and
  banned (`Decisions.LowLevels`).
* Once a nick has come within one wrong password of the limit and a minute has passed since its first try, it may go on
  for good (`Effects.GuessesUnlimited`).
* A SID line with an empty SID is accepted, again and again under new names (`Timers.StepSids`).
* Taking a status from a nick that is not online, such as a services bot, dereferences a null pointer
  (`Mode.FaultsExactly`, `Mode.ShortFaults`).
* The message limiter holds its bound exactly when the ignore time is at least the message time (`Flood.BoundExactly`).
* A message of 1022 characters or more goes out without its final line feed (`SendQueue.WireWhole`).
* What an owner has done to its own flags is undone when the program is started again (`Restarts.RestartAfterRun`,
  `RestartExamples.OwnersFlagsUndone`). Loading would also make up a timeout or last-seen time of 0 and the flags of an
  entry that has none (`Database.RoundTrip`), but commands bring about neither such timeouts nor such entries
  (`Suspension.RunTimeouts`, `AccessRuns.StepNotEmpty`).

## Model

| member | source | states |
|---|---|---|
| `LList.InsertTail` | src/llist.h:26-32 | links an element at the tail of a ring and changes no link outside it |
| `LList.Remove` | src/llist.h:42-48 | unlinks an element from its ring, leaving the others in order and the element as a ring of its own |
| `LList.RingUnique` | src/llist.h:18-60 | the pointers of a ring determine the list it stands for, so a ring cannot be read in two ways |
| `Hashing.ComputeHashStr` | src/hashmap.h:79-89 | the shift-and-add loop on 32-bit unsigned arithmetic is multiplication by 33 modulo 2^32 at every character |
| `Hashing.ComputeHashStrNocase` | src/core.c:29-42 | hashes the lower-cased key through the fixed buffer, writing exactly the key and its terminator |
| `Hashing.RegistriesLawful` | src/core.c:29-79 | keys that compare equal without case hash equally, which every registry relies on |
| `Hashing.FoldsAlike` | src/core.c:44-47 | two keys are one exactly when they are equal letter by letter or up to the case of a letter from A to Z |
| `Hashing.HashIsPolynomial` | src/hashmap.h:79-89 | the hash is the polynomial in 33 with the characters as digits, modulo 2^32 |
| `Hashing.MixedDescriptorUnlawful` | src/hashmap.h:79-89 | a case-sensitive hash with a case-insensitive comparison does not have that property: two keys are named |
| `Hashmap.BucketIsRemainder` | src/hashmap.c:51-54 | with a power of two as bucket count the mask is the remainder of the hash |
| `Hashmap.Hashmap.BucketRing` | src/hashmap.c:51-89 | in every valid table the ring of a bucket is the subsequence of the key ring that hashes to the bucket |
| `Hashmap.Hashmap.KeyRing` | src/hashmap.c:126-129 | the key ring is the entries in insertion order |
| `Hashmap.Hashmap.Resize` | src/hashmap.c:61-89 | rebuilds all bucket rings at the new size from the key ring alone; no entry is lost, and the order of the keys stays |
| `Hashmap.Hashmap.Insert` | src/hashmap.c:91-135 | inserts at the end exactly when no key compares equal; otherwise changes nothing and returns the old entry; doubles when it must grow |
| `Hashmap.Hashmap.Find` | src/hashmap.c:137-154 | finds an entry exactly when one compares equal |
| `Hashmap.Hashmap.Erase` | src/hashmap.c:156-178 | takes out exactly the entry that compares equal, from both rings |
| `Hashmap.Hashmap.Flush` | src/hashmap.c:180-188 | ends with no entries, freeing from the head of the key ring |
| `Hashmap.Hashmap.ForEach` | src/hashmap.h:47-48 | walking the key ring gives keys and values in insertion order |
| `OrderedMap.RunIsMap` | src/hashmap.c:91-188 | over every run of insert, find, erase and flush the item list stands for the finite map that the run computes |
| `OrderedMap.InsertionOrder` | src/hashmap.h:47-51 | after every run from the empty table the surviving items stand in the order of strictly increasing insertion times |
| `OrderedMap.LookupIsMap` | src/hashmap.c:137-154 | looking a key up in the item list and in the map give the same answer, up to case |
| `OrderedMap.BucketsExactly` | src/hashmap.c:56-59 | after every run the table is exactly as large as it had to be: whenever an item was added the items before were at most three quarters of the buckets of now, and if it has grown they once were more than three quarters of half of them |
| `OrderedMap.PerformAll` | src/hashmap.c:91-188 | every run on the pointer structure gives the items and every answer of the list and the number of buckets of the run, and keeps the load bound from 16 buckets on |
| `Network.WithoutTwice` | src/user.c:375-389 | taking nicks off the network in two batches is taking them off in one |
| `Network.WithoutKeepsInv` | src/user.c:375-389 | taking any set of nicks off the network keeps every law: lists, pairs, counters, timers, sessions, servers |
| `Core.Core.UserQuit` | src/user.c:375-389 | userquit found by name or UID leaves exactly the state without that nick |
| `Core.Core.DeleteUserFromWchans` | src/channel.c:494-501 | the safe iteration reads no membership after it is freed and unlinks all of the nick's from both lists |
| `Core.Core.DeleteUserFromWchan` | src/channel.c:359-380 | unlinks the membership from both lists and deletes the channel exactly when it is left empty |
| `Core.Core.DeleteWildNick` | src/user.c:217-233 | takes the nick out of the registry, its host counter (erased at zero) and its server's list |
| `Cascades.QuitIsWithout` | src/user.c:375-389 | the steps of userquit one after the other have the effect stated all at once |
| `Cascades.QuitExactly` | src/user.c:375-389 | field by field: exactly that nick's memberships go, exactly the channels it leaves empty go, the rest keep members and order; one session, one timer, one count; nothing else changes |
| `NetSplit.WithoutKeeps` | src/server.c:64-87 | taking away a set of servers closed under leaves, with all nicks on them, keeps every law |
| `NetSplit.DetachOneMore` | src/server.c:82-84 | detaching the leaves one after the other is detaching their subtrees: they are disjoint |
| `NetSplit.DetachWhole` | src/server.c:74-87 | quitting the nicks, detaching the leaves and deleting the server takes the whole subtree away |
| `Core.Core.DetachServer` | src/server.c:74-87 | the destructive recursion terminates on every server forest and leaves the state without the subtree |
| `Cascades.SplitExactly` | src/server.c:74-87 | a netsplit takes exactly the servers below the root and exactly their nicks; survivors keep their other leaves and their nicks, each nick on exactly one server |
| `Events.LoginKeeps` | src/user.c:678-717 | a login of a nick without account keeps the laws exactly when the account has no session |
| `Events.GhostLoginKeeps` | src/modules/sasl.c:162-167 | killing the holder of the session first always keeps them |
| `Events.NickChangedKeeps` | src/parseline.c:803-856 | a nick change keeps the laws, except that the branch for linked accounts does so exactly when the old session is the nick's own and the new account has none |
| `Events.JoinKeeps` | src/parseline.c:186-189 | a JOIN keeps the laws exactly when the nick is not on the channel yet |
| `Events.ConnectKeeps` | src/parseline.c:1132-1134 | a new nick keeps the laws, its host counter and its server's list included |
| `Events.SaslKeeps` | src/modules/sasl.c:148-170 | the hook run for a new nick keeps the laws whatever account it names |
| `Events.SaslAccount` | src/modules/sasl.c:148-167 | the hook logs the nick in to the account its SVID names exactly when no other account has the nick's own name, for that one comes first |
| `Events.AddServerForest` | src/server.c:41-62 | a new server hangs below its hub and is younger, so the servers stay a forest |
| `NetRuns.StepKeeps` | src/parseline.c:1058-1161 | each of the twenty events and commands keeps every law exactly when it is not a second JOIN, a move of a session that is not the nick's own or goes to an account in use, or OPER FORCEAUTH on an account in use |
| `Origins.NicksExactly` | src/parseline.c:802-856 | for every event exactly: which nicks leave and arrive, who has which account, and who has which name afterwards; everybody else is as before |
| `Origins.AccountHasOrigin` | src/user.c:678-717 | over every run: whoever has an account at the end had it at the beginning or was given it on the way, by IDENTIFY with the right password, REGISTER, a UID line, a nick change of a linked account or OPER FORCEAUTH |
| `Origins.IdentifyGives` | src/modules/m_nick.c:279-333 | IDENTIFY gives an account exactly with the right password, the account of the nick's name, to a nick without one, when it is not suspended |
| `Records.RecordsExactly` | src/modules/m_nick.c:189-194 | for every event exactly: which accounts there are, and their level, suspension, protection and timeout |
| `Records.PairsExactly` | src/parseline.c:153-190 | for every event exactly: which nicks are on which channels; they stay while online, but for PART, and get there by JOIN and SJOIN |
| `Records.JoinsExactly` | src/channel.c:339-357 | JOIN and SJOIN append the membership to both lists, and SJOIN alone passes over a nick that is there |
| `Timers.TimersExactly` | src/parseline.c:1150-1160 | for every event exactly: which guest timers run; one starts for a nick without session on a protected name and ends with the login, the renaming, the quit, the account or its time |
| `Timers.ServersExactly` | src/server.c:74-87 | for every event exactly: which servers there are, below which hub |
| `Timers.ServersInOrder` | src/server.c:41-62 | a new server is appended to the list and to the leaves of its hub, and nothing else changes |
| `Timers.StepSids` | src/parseline.c:1246-1277 | no event but a SID line with an empty SID makes SIDs empty or not distinct |
| `NetRuns.IntroducedAccount` | src/modules/sasl.c:148-167 | the same for a whole UID line |
| `NetRuns.RunKeeps` | src/parseline.c:1058-1161 | over every run of such events, under a configuration that may change: memberships agree on both lists with no pair twice, sessions are inverse partial bijections with authed set accordingly, guest timers are for online nicks, each nick is on one server, counters are exact |
| `NetRuns.RunCapped` | src/parseline.c:1104-1120 | over every such run no host ever has more nicks online than the largest limit that was in force |
| `Suspension.StepQuiet` | src/modules/sasl.c:148-167 | a step keeps suspended accounts without sessions exactly when it is not a UID line whose SVID leads to one, a nick change that moves a session to one, OPER FORCEAUTH on one, or NICK LINK to one; and no step sets a timeout to 0 |
| `Suspension.RunQuiet` | src/modules/m_oper.c:1148-1155 | over every run without such steps no suspended account has a session |
| `Suspension.RunTimeouts` | src/modules/m_nick.c:564-575 | over every run no timeout is 0 |
| `NetExamples.SuspendedWoken` | src/modules/m_oper.c:486-520 | a run after which OPER FORCEAUTH logs a nick in to a suspended account |
| `NetExamples.TimerStarts` | src/parseline.c:1156-1160 | a run after which a nick on a protected name is given a guest timer |
| `NetExamples.JoinsTwice` | src/parseline.c:186-189 | a run from the empty network to a state in which a second JOIN breaks a law |
| `NetExamples.TakesTheAccount` | src/parseline.c:838-848 | a run to a state in which a nick change to a linked account, and OPER FORCEAUTH, take an account from the nick that is logged in to it |
| `NetExamples.SameNameTwice` | src/nick.c:257-261 | a run to a state in which a second UID line with the same name faults |
| `NetExamples.SvidNotFollowed` | src/modules/sasl.c:148-167 | a run after which a nick with the SVID of one account is logged in to another |
| `Core.Core.MUid` | src/parseline.c:1058-1161 | the handler refuses unknown servers and full hosts, dereferences a null pointer exactly when the name of a line it does not refuse is in use, and otherwise has the effect of the UID step, which `Effects.UidExactly` describes |
| `Effects.UidExactly` | src/parseline.c:1104-1160 | a UID line of a known server is admitted exactly when fewer nicks are on the host than the limit of the trust that was found, or else the general one; then the nick is what the line says with the account it brought, and the nick whose session it took is gone |
| `Core.Core.SaslFinishSession` | src/modules/sasl.c:148-170 | no account and svid 0, account of the nick's name, account of the svid, none: each case as the step says |
| `Core.Core.MNick` | src/parseline.c:803-856 | has the effect of the NICK step, on every branch |
| `Core.Core.MJoin` | src/parseline.c:174-189 | has the effect of the JOIN step for one channel of the line, also when the nick is on it already |
| `Core.Core.MSjoin` | src/parseline.c:1357-1377 | has the effect of the SJOIN step for one item of the buffer, skipping nicks that are on the channel |
| `Core.Core.MSid` | src/parseline.c:1246-1277 | refuses an unknown hub and a known name or SID, and otherwise adds the server |
| `Core.Core.MSquit` | src/parseline.c:1230-1244 | has the effect of the netsplit |
| `Core.Core.NickIdentify` | src/modules/m_nick.c:279-333 | the handler has the effect of the IDENTIFY step, which `Effects.IdentifyExactly` and `Effects.WrongPasswordExactly` describe: wrong passwords are counted within a minute, the holder of the session is killed, then the nick is logged in |
| `Effects.IdentifyExactly` | src/modules/m_nick.c:279-333 | after IDENTIFY a nick has the account of its name exactly with the right password and when it is not suspended; then exactly the former holder of the session is gone, and no other nick or account changes |
| `Effects.WrongPasswordExactly` | src/modules/m_nick.c:303-317 | a wrong password is counted, the nick is gone exactly at the limit within 60 seconds of its first try, the count starts anew exactly after that time below the limit, and no account and no other nick changes |
| `Effects.GuessedOut` | src/modules/m_nick.c:303-317 | over runs: a nick that gives wrong passwords within a minute is online exactly until it has given as many as the limit |
| `Effects.GuessesUnlimited` | src/modules/m_nick.c:303-317 | over runs: once the count is at most one below the limit and the minute is over, no number of wrong passwords has the nick killed |
| `Core.Core.NickRegister` | src/modules/m_nick.c:335-400 | refuses when the nick has an account or its name is registered; adds the account and logs in unless a password is mailed |
| `Core.Core.OperSuspend` | src/modules/m_oper.c:1138-1155 | unless the account is of the caller's rank or above, suspends it and ends its session |
| `Core.Core.DeleteAccount` | src/user.c:206-215 | ends the session, erases the account and its timer |
| `Core.Core.RunGuestTimers` | src/user.c:357-373 | deletes exactly the timers that have run out |
| `Access.FindIsFirstHolder` | src/channel.c:76-95 | find_cflag_recursive returns the entry of the first user on the chain of masters that holds one |
| `Access.FirstHolderIsFirst` | src/channel.c:76-95 | that user holds an entry and nobody before it on the chain does; there is none exactly when nobody on the chain does |
| `Access.ChannelCanDecidedBy` | src/channel.c:804-978 | every ChannelCan check on every acyclic map of links terminates and is decided by that same entry, unless a super administrator comes first on the chain |
| `Access.FounderDecidedBy` | src/channel.c:759-786 | IsFounder is decided by the same entry |
| `Decisions.TrueOwnerExactly` | src/channel.c:788-802 | IsTrueOwner holds exactly for those whose chain of masters first meets the owner of the channel |
| `Decisions.LevelDecidedBy` | src/channel.c:109-139 | a level is that of the entry found on the chain, unless it or the channel is suspended or a nick with the mode comes first |
| `Decisions.WriteAclDecidedBy` | src/channel.c:1009-1050 | writing entries is decided by the entry found: by founders, and by holders of x for themselves, for those without F, f and p, and by rank with F or f |
| `Decisions.ModesAgree` | src/channel.c:744-757 | an entry made with a level allows the same in level mode as its flags do in flag mode, for every privilege and level but the topic for half ops |
| `Decisions.FlagsByLetters` | src/channel.c:804-978 | the letters one of which is enough for each privilege |
| `Decisions.LowLevels` | src/channel.c:744-757 | which low levels stand for being refused op, kicked and banned: among the last are those from 0 up to that for invitations |
| `Access.OpHalfopVoice` | src/channel.c:826-890 | op implies half op implies voice, on all channels and in both modes, exactly when the configured levels are so ordered |
| `AccessRuns.LinkKeepsAcyclic` | src/modules/m_nick.c:163-189 | a new link closes a circle exactly when the slave is already among the masters of its master |
| `AccessRuns.CircleOfThree` | src/modules/m_nick.c:163-182 | the tests nick_link makes are not enough: three names linked in a circle |
| `AccessRuns.EndsExactly` | src/user.c:580-586 | going up the chain of masters ends for everybody exactly when the links have no circle |
| `AccessRuns.CircleNeverEnds` | src/channel.c:76-95 | on a circle none of whose users has an entry there is always another master and never an entry, so the checks do not end |
| `AccessExamples.CircleClosed` | src/modules/m_nick.c:163-187 | a run after which a third link closes such a circle |
| `Ownership.ExactlyOneOwner` | src/channel.c:171-178 | the invariant says: one entry of level CHLEV_OWNER and one holder of F on a channel, both the registered user it names |
| `Ownership.AccessDeletedKeeps` | src/modules/m_chan.c:408-448 | the del branch keeps the invariant exactly when it is not the owner deleting itself in level mode |
| `Ownership.UserDroppedKeeps` | src/user.c:469-489 | after userdrop no entry, link or channel names the user, and the invariant holds |
| `FlagRuns.FlagsChangedKeeps` | src/modules/m_chan.c:1784-1840 | a flag command keeps the invariant exactly when it does not give F to another or take it from the owner |
| `Decisions.FounderSetExactly` | src/modules/m_chan.c:1058-1083 | the founder changes exactly when the target is registered and the caller is an operator or its chain meets the owner first; then the owner's entry goes, the target's is that of an owner, and all else stays |
| `Decisions.OwnersExactly` | src/channel.c:141-179 | for every command exactly: which channels there are and who owns them |
| `Decisions.OwnerHasOrigin` | src/modules/m_chan.c:1058-1083 | over every run: the owner of a channel owned it at the beginning or was made its owner by registering it, by such a founder change, or as heir of a dropped account |
| `Decisions.AddExactly` | src/modules/m_chan.c:320-371 | ACCESS ADD puts the target at the level exactly when the caller is strong, or outranks both the target and the level with the level of an administrator; nothing else changes |
| `Decisions.DeleteExactly` | src/modules/m_chan.c:408-448 | ACCESS DEL takes away exactly the caller's own entry or that of a target it outranks, and never the owner's by another |
| `Decisions.AxxflagsExactly` | src/modules/m_chan.c:989-1010 | exactly founders change the mode of a channel, and nothing else changes |
| `Decisions.UserDroppedExactly` | src/user.c:469-489 | after userdrop a channel of another has lost the user's entry and nothing else, and one of the user is gone exactly when it has no co-owner |
| `Decisions.CreatedExactly` | src/channel.c:141-179 | a new channel has the one entry of its owner, and dropping it gives the registries back |
| `Decisions.LinkExactly` | src/modules/m_nick.c:163-187 | a link is made exactly when the master is another account, the name has no master, and the master is not linked to it |
| `Decisions.EntrySuspendedExactly` | src/modules/m_chan.c:1532-1548 | a suspension and its end change the mark on one entry and nothing else |
| `Decisions.AccountsExactly` | src/user.c:271-282 | for every command exactly: which accounts and links are there |
| `AccessRuns.RunKeepsOwners` | src/channel.c:141-179 | over every run of such commands, whatever the levels and whoever is administrator at each of them, links stay acyclic and each channel has exactly one entry of level CHLEV_OWNER and one holder of F, the registered user named as owner |
| `AccessRuns.StepCoowners` | src/modules/m_chan.c:357-365 | a command keeps at most one co-owner on every channel exactly when it is not an ACCESS ADD of one while somebody else holds f: its test looks at levels |
| `AccessRuns.RunCoowners` | src/modules/m_chan.c:357-365 | over every run of safe commands without such an addition there is at most one co-owner, so the choice of userdrop does not depend on the order of the list |
| `AccessRuns.StepNotEmpty` | src/channel.c:301-322 | no command, in either mode, leaves an entry without flags |
| `AccessRuns.StepSlaves` | src/modules/m_nick.c:163-187 | a command keeps all slaves of links accounts exactly when it is not a NICK LINK under a nick that is none |
| `AccessExamples.OwnerDeletesItself` | src/modules/m_chan.c:408-448 | a run from empty registries after which an owner's self-removal breaks the invariant |
| `AccessExamples.BossGivesF` | src/modules/m_chan.c:1784-1840 | a run after which a super administrator with an account makes a second holder of F |
| `AccessExamples.TwoCoowners` | src/modules/m_chan.c:357-365 | a run after which ACCESS ADD makes a second co-owner |
| `FlagRuns.FlagsSourced` | src/channel.c:1119-1169 | one flag command by an ordinary caller changes one entry, and F, f, w, p, P, x and s only as far as the caller's own F, f or p allow |
| `Decisions.FlagCommandExactly` | src/modules/m_chan.c:1784-1827 | who may give a flag command, for every caller exactly: an identified super administrator, or a holder of an unsuspended entry with F, f or x that names, without F and f, itself or a target without F, f and p, and only flags that go with its own; and nobody makes a second co-owner |
| `Decisions.NamedFlags` | src/modules/m_chan.c:1827-1840 | a plus sets exactly the named flags of a mask and a minus clears them, and the others stay |
| `Decisions.FlagEffect` | src/modules/m_chan.c:1827-1842 | then the target's entry has the flags set or cleared, is made or deleted, and else nothing changes; otherwise nothing changes at all |
| `FlagRuns.RunKeeps` | src/modules/m_chan.c:1779-1842 | over every run of flag commands by callers who are ordinary at that moment the holders of F stay, there is never a second co-owner, and no entry has empty flags |
| `FlagRuns.ChangeHasOrigin` | src/modules/m_chan.c:1809-1841 | every bit a run changes is changed by one of its commands, whose caller held what is needed at that moment |
| `FlagRuns.CoownerFromOwner` | src/modules/m_chan.c:1818-1830 | whoever becomes co-owner during a run was made so by a holder of F |
| `FlagRuns.NoEscalation` | src/channel.c:1119-1169 | callers without F, f and p change nobody's F, f, w, p, P, x or s, however many commands they give |
| `CflagLists.AddedKeeps` | src/channel.c:301-322 | a new entry goes on both lists and both describe the new relation |
| `CflagLists.WithoutKeeps` | src/channel.c:331-337 | deleting entries takes them off both lists and out of the relation |
| `Registry.Registry.AddUserToChannel` | src/channel.c:301-322 | adds one pair to the relation, with the flags of the level when none are given |
| `Registry.Registry.DeleteUserFromChannel` | src/channel.c:324-329 | takes the pair out of the relation, if it is there |
| `Registry.Registry.DeleteUsersFromChannel` | src/channel.c:239-246 | the safe iteration frees exactly the entries of the channel |
| `Registry.Registry.CreateChannel` | src/channel.c:141-179 | refuses a registered channel and an unknown owner; otherwise registers the channel and its owner's entry |
| `Registry.Registry.Chandrop` | src/channel.c:629-635 | takes the channel and all its entries out of both sides |
| `Registry.Registry.GetCoowner` | src/channel.c:1171-1181 | returns the first co-owner on the list of the channel, and none exactly when the relation has none |
| `Registry.Registry.IsFounder` | src/channel.c:759-786 | the walk over lists and links ends and agrees with the decision on the relation |
| `Registry.Registry.IsTrueOwner` | src/channel.c:788-802 | the walk over stored lists and links gives the decision on the relation, which is that the chain of masters meets the owner first (`Decisions.TrueOwnerExactly`) |
| `Registry.Registry.GetFlag` | src/channel.c:109-139 | the same |
| `Registry.Registry.ChannelCan` | src/channel.c:804-1007 | the same, for each privilege |
| `Registry.Registry.ChannelCanWriteAcl` | src/channel.c:1009-1050 | the same, for two users |
| `Registry.Registry.DecideAdd` | src/modules/m_chan.c:320-365 | the guards of the add branch, evaluated on the lists, are those the theorems on runs speak of |
| `Registry.Registry.DecideFlags` | src/modules/m_chan.c:1784-1826 | the same for the flag command |
| `Registry.Registry.ChanSetFounder` | src/modules/m_chan.c:1058-1083 | on the stored lists the command has the effect of the founder step, which `Decisions.FounderSetExactly` describes |
| `Registry.Registry.ChanFlags` | src/modules/m_chan.c:1779-1842 | on the stored lists the command has the effect of the flag step, which `Decisions.FlagEffect` describes |
| `Registry.Registry.Userdrop` | src/user.c:469-489 | promotes the co-owner or drops the channel, for every channel of the user, and leaves no entry or link to it |
| `Uflags.ParseUflags` | src/channel.c:679-742 | joins the flags of the letters, ignoring other characters |
| `Uflags.GetUflagsString` | src/channel.c:1091-1117 | writes the letters of the mask in the fixed order |
| `Uflags.ParsedJoin` | src/channel.c:679-742 | parsing is a homomorphism from concatenation to union, on arbitrary strings |
| `Uflags.FlagBits` | src/channel.c:679-742 | the 18 letters stand for one bit each, in order, and no other character for any |
| `Uflags.StringThenParse` | src/channel.c:679-742 | parsing what was printed gives back every mask, up to bits that stand for nothing |
| `Uflags.ParseThenString` | src/channel.c:1091-1117 | printing what was parsed lists exactly the letters that were used |
| `Mode.MMode` | src/parseline.c:601-798 | the two loops that jump into one another at a change of sign compute the fold over the letters; what a letter does is said by `Letters.LetterGives`, `Letters.LetterTakes` and `Letters.LetterIdle` |
| `Mode.CursorCounts` | src/parseline.c:607-796 | on every path the cursor advances by one for each letter that takes an argument and for no other |
| `Letters.LetterGives` | src/parseline.c:609-704 | after any front of the line a status letter under plus gives exactly its status to the member its argument names, unless its level bars it, or it is not entitled where STRICTOP is on or it would be op alone; nothing else changes |
| `Letters.LetterTakes` | src/parseline.c:712-789 | under minus it takes the status away, except from the bot, and except that with PROTECTOPS one who is entitled holds it afterwards, unless it is the sender |
| `Letters.LetterIdle` | src/parseline.c:609-789 | any other letter, and one whose argument names no member, changes no status |
| `Letters.OneLetter` | src/parseline.c:722-789 | on a channel that is not registered a line of one letter gives and takes exactly its status |
| `Letters.EntitledInLevelMode` | src/parseline.c:640-690 | in level mode whoever is identified is entitled exactly when the services say it can be protected, op or half op |
| `Letters.EntitledOthers` | src/parseline.c:640-650 | owners are entitled exactly when identified and founders, by the entry found on the chain, and whoever is identified to voice |
| `Letters.FlagHolderRefused` | src/parseline.c:666-676 | in flag mode with STRICTOP a holder of the flag o whose entry has a level below op is refused op |
| `Mode.FaultsExactly` | src/parseline.c:712-719 | a line dereferences a null pointer or reads an unwritten argument exactly when a letter named by the predicate is in it |
| `Mode.ShortFaults` | src/parseline.c:712-719 | a line that takes op from one name faults exactly when nobody of that name is online, as no services bot is; two more short lines that always fault |
| `Mode.StrictlyEntitled` | src/parseline.c:639-689 | with STRICTOP every q, a, o or h newly set by a line belongs to an identified account entitled to it |
| `Mode.Protected` | src/parseline.c:722-771 | with PROTECTOPS nobody else takes q, a or o from one entitled to it |
| `Mode.OthersUnchanged` | src/parseline.c:601-798 | a line changes nobody that none of its arguments names |
| `Flood.Sender.PrivMsg` | src/parseline.c:961-981 | updates the four counters and accepts as the transition function says |
| `Flood.FloodBound` | src/parseline.c:961-981 | on every trace no closed interval of length maxmsgtime holds more than max(n+1, 2n-1), hence 2n, accepted messages |
| `Flood.NeverIgnored` | src/parseline.c:961-982 | whoever keeps to maxmsgnb messages in every interval of length maxmsgtime gets all of them through |
| `Flood.OneTooMany` | src/parseline.c:961-982 | whoever starts with one more than that is ignored from the last one on |
| `Flood.IgnoredUntil` | src/parseline.c:961-982 | whoever is ignored gets nothing through until the ignore time is over, and then the next message |
| `Flood.BoundReached` | src/parseline.c:961-981 | the bound is reached for every n of at least 2 and every message time of at least 1 |
| `Flood.ShortIgnoreTime` | src/parseline.c:962-967 | for every shorter ignore time there is a trace with more than the bound in one interval |
| `Flood.BoundExactly` | src/parseline.c:961-981 | the bound holds on every trace and every interval exactly when the ignore time is at least the message time |
| `Base64.DecodeEncode` | src/base64.c:67-158 | decoding undoes the encoding of section 4 of RFC 4648 |
| `Base64.LetterExactly` | src/base64.c:29-31 | the 64 letters are those from A to Z, a to z, 0 to 9, plus and slash, in this order |
| `Base64.EncodedBits` | src/base64.c:67-158 | one to three bytes and the four letters for them are the same 24 bits, with zero bits for the bytes that are missing and a pad for each |
| `Base64.EncodedApart` | src/base64.c:67-158 | after whole groups of three bytes the encoding begins anew |
| `Base64.EncodeDecode` | src/base64.c:130-155 | only encodings are decoded, with zero pad bits as in section 3.5 of RFC 4648 |
| `Base64.DecodeOutcome` | src/base64.c:86-155 | the four states with their partial byte decide like the definition by groups of four |
| `Base64.B64Decode` | src/base64.c:67-158 | returns the number of bytes of an encoding that fits and -1 otherwise, writes those bytes, and writes nothing at or beyond targsize |
| `Base64.SpacesExactly` | src/base64.c:75-77 | white space of the C locale is ignored wherever it stands, and no other character is |
| `Base64.AcceptsExactly` | src/base64.c:67-158 | accepted exactly when the source without white space is the encoding of bytes d with room for the length of d if 3 divides the length of d and the length of d+1 otherwise |
| `Sasl.StartSession` | src/modules/sasl.c:103-123 | decodes into the cleared buffer and splits at the first two NULs |
| `Sasl.PlainMessage` | src/modules/sasl.c:103-123 | recovers authcid and password from every message of section 2 of RFC 4616 of at most 399 bytes |
| `Sasl.SplitTrailing` | src/modules/sasl.c:110-123 | whatever follows a NUL after the password is not part of it |
| `Sasl.PlainExactly` | src/modules/sasl.c:104-122 | accepts exactly the Base64 of bytes that fit and contain at least two NULs |
| `Framing.Input.ReadChunk` | src/net.c:263-290 | moves what is pending to the front and appends what the kernel gives, at most the room that is left; a failed read loses what was pending |
| `Framing.Input.ReadLine` | src/net.c:292-317 | takes out the text before the first delimiter with one or two delimiters, or nothing when no line is complete |
| `Framing.CutIsSplit` | src/net.c:292-317 | the cut of a stream is its only reading as lines that are not empty and contain no CR or LF, set apart by CR and LF, with a rest that contains none |
| `Framing.DelimitersExactly` | src/net.c:292-317 | CR and LF each end a line, and no other character does |
| `Framing.TakenIsCut` | src/net.c:292-317 | taking a line out is cutting it off the pending text, up to empty lines |
| `Framing.ChunkIndependence` | src/net.c:263-317 | for every slicing and interleaving the non-empty lines taken and the pending text cut up are the stream cut up at CR and LF |
| `Framing.AllLinesTaken` | src/net.c:292-317 | once no complete line is pending, the lines taken and the leftover are a function of the stream alone |
| `Framing.Input.Serve` | src/child.c:178-185 | the main loop on any stream and any arrival of its bytes takes out exactly the lines of what it has read, keeps the rest, and goes on exactly while bytes arrive and the open line leaves room in the buffer |
| `SendQueue.WireWhole` | src/net.c:164-167 | a message keeps both delimiters exactly up to 1021 characters; beyond that the line is cut and loses the last one |
| `SendQueue.SendQ.SendRaw` | src/net.c:164-193 | queues the line or, when it does not fit, leaves the queue unchanged |
| `SendQueue.SendQ.FlushSendq` | src/net.c:222-242 | what was queued is what was sent followed by what is queued now |
| `SendQueue.FirstInFirstOut` | src/net.c:169-242 | over every interleaving, sent followed by queued is the concatenation of the accepted lines, and the queue stays below SENDQSIZE |
| `SendQueue.AcceptedExactly` | src/net.c:154-242 | after any history a message is accepted exactly when the queue stays below the size of its buffer with it, and a send takes from the front |
| `SendQueue.Drains` | src/net.c:222-242 | enough sends of a byte each bring out everything accepted |
| `SendQueue.SendQ.Perform` | src/net.c:154-242 | any sequence of messages and partial sends on the buffer: what was sent followed by what is queued is the accepted lines |
| `Database.Registries.LoadAllDb` | src/db.c:696-745 | loads the seven tables in order, row by row, up to the first error |
| `Database.Registries.SaveCflagDb` | src/db.c:588-597 | saves exactly the entries below the level of an owner |
| `Database.LoadsReloaded` | src/db.c:47-504 | for all registries and every order of their rows: what was saved is loaded exactly when both ends of links, owners of channels and both ends of entries are registered, no entry below owner level is that of its channel's own owner, and only bots are assigned; and then it is these registries, with owner entries made anew |
| `Database.RoundTrip` | src/db.c:47-504 | it gives back the same registries exactly when they can be loaded, no timeout or last-seen time is 0, no entry has empty flags and every owner's entry is at its default |
| `Database.CflagRowExactly` | src/db.c:199-260 | in any table a row at owner level changes nothing wherever it stands, and one above it or of an unknown channel or user has the table refused |
| `Database.ReloadedExactly` | src/db.c:47-84 | the accounts and channels that come back, item by item: only a timeout or last-seen time of 0 is replaced |
| `Database.ReloadedEntries` | src/db.c:199-260 | the entries that come back: the owners' as they are made, those below as they were, with the flags of their level where they had none |
| `Database.Registries.Restart` | src/db.c:676-745 | saving and loading as the program does it is refused, and gives the same registries, exactly under those conditions |
| `Database.ReloadedTwice` | src/db.c:47-504 | what has been loaded is never refused again and comes back unchanged from every later save |
| `Restarts.RestartAfterRun` | src/child.c:345-352 | after every run of safe commands from the start the next program starts exactly when every slave of a link is an account, has the same entries exactly when no owner's entry was changed, and has ownership and links again as they should be |
| `Restarts.RunSlaves` | src/modules/m_nick.c:163-187 | every run in which links are made under the names of accounts keeps all slaves accounts |
| `RestartExamples.SlaveUnknown` | src/db.c:345-349 | a run after which NICK LINK has stored the name of a nick that is no account, and the next program does not start |
| `RestartExamples.OwnerComesBack` | src/db.c:226-229 | a run after which the row of an owner's new entry collides with the entry made with its channel, and the next program does not start |
| `RestartExamples.OwnersFlagsUndone` | src/db.c:208-209 | a run after which the next program undoes what an owner did to its own flags |
| `Tables.LoadsExactly` | src/db.c:86-118 | a saved registry is loaded, in any order of its rows, exactly when each item is taken and its key is new; then it is there again beside what was there before |
| `Tables.LoadTable` | src/db.c:86-118 | the loop over the rows of a table stops at the first that is refused |
| `Tables.SaveTable` | src/db.c:527-552 | the loop over a registry writes one row for each item |
| `Core.Core.FindNick` | src/nick.c:216-228 | the walk over the registry finds the nick with that name or UID, if there is one |
| `Effects.NickOfExactly` | src/nick.c:216-228 | a nick is found by its name and by its UID, and nobody by the empty string |
| `Timers.ServerOfExactly` | src/server.c:28-39 | the server found is the first on the list with that name or SID |
| `Core.Core.FindMember` | src/channel.c:415-425 | the walk over a member list finds the nick's membership exactly when it has one |
| `Core.Core.FindServer` | src/server.c:29-39 | the first server on the list with that name or SID |
| `Core.Core.GreetNick` | src/parseline.c:1141-1160 | honours or drops the +r a nick brings, then starts a timer on a protected name |
| `Core.Core.MServer` | src/parseline.c:1279-1288 | adds the uplink as a root unless its SID is empty or known |
| `Core.Core.OperForceauth` | src/modules/m_oper.c:486-520 | logs the nick in to the account of the name given unless it has one; an account in use is not refused |
| `Core.Core.NickLink` | src/modules/m_nick.c:189-194 | the account that nick_link is given for takes over the options, suspension included, and the timeout of the master |
| `Membership.PartKeeps` | src/channel.c:359-380 | leaving a channel keeps every law |
| `Events.LogoutKeeps` | src/user.c:719-733 | a logout keeps every law when the account is the nick's own or none |
| `Events.GreetKeeps` | src/parseline.c:1141-1160 | the end of UID keeps every law: it never logs in to an account in use |
| `Events.RenameKeeps` | src/parseline.c:819-830 | renaming to a free name keeps every law, timers included |
| `Events.IdentifiedKeeps` | src/modules/m_nick.c:279-333 | IDENTIFY keeps every law on all its paths |
| `Events.RegisteredKeeps` | src/modules/m_nick.c:335-400 | REGISTER keeps every law |
| `Events.SuspendedKeeps` | src/modules/m_oper.c:1148-1155 | suspending an account keeps every law |
| `Events.DroppedKeeps` | src/user.c:206-215 | dropping an account keeps every law |
| `Events.AddServerKeeps` | src/server.c:41-62 | a new server keeps every law |
| `Events.TickedKeeps` | src/user.c:357-373 | running the guest timers keeps every law |
| `NetRuns.StepCapped` | src/parseline.c:1104-1134 | no step takes a host counter above the largest limit |
| `NetSplit.LeafSubtreesDisjoint` | src/server.c:82-84 | the subtrees of two leaves of a server share nothing, so the recursion visits each server once |
| `NetSplit.SubtreeAfter` | src/server.c:82-84 | a detached subtree leaves the subtrees it does not touch as they were |
| `Ownership.CreatedKeeps` | src/channel.c:141-179 | registering a channel keeps the ownership invariant; a registered channel or an unknown owner changes nothing |
| `Ownership.ChanDroppedKeeps` | src/channel.c:629-635 | dropping a channel keeps it |
| `Ownership.FounderSetKeeps` | src/modules/m_chan.c:1058-1083 | changing the founder keeps it, whoever asks and whoever is named |
| `Ownership.AccessAddedKeeps` | src/modules/m_chan.c:320-371 | the add branch keeps it on every path |
| `Ownership.PartlyDone` | src/user.c:475-487 | the loop over the channels followed by the deletions has the effect of userdrop all at once |
| `AccessRuns.StepKeeps` | src/modules/m_chan.c:294-448 | every command keeps ownership and the acyclicity of links exactly when it is not one of the four exceptions: a circle of links, an owner's self-removal, F to another, F off the owner |
| `FlagRuns.GuardsPassed` | src/modules/m_chan.c:1784-1826 | what the guards of chan_flags together have established when the entry is changed |
| `FlagRuns.FlagsKept` | src/modules/m_chan.c:1818-1840 | one flag command leaves no empty entry and makes no second co-owner |
| `Registry.Registry.FindCflag` | src/channel.c:64-74 | finds the entry exactly when the pair is in the relation |
| `Registry.Registry.DeleteUserFromChannels` | src/channel.c:485-492 | the safe iteration frees exactly the entries of the user |
| `Registry.Registry.ChanAccessAdd` | src/modules/m_chan.c:320-368 | decides on the stored lists and replaces the target's entry |
| `Registry.Registry.ChanAccessDel` | src/modules/m_chan.c:408-446 | decides on the stored lists and deletes the caller's or the target's entry |
| `Registry.Registry.DeleteLinks` | src/user.c:271-280 | keeps exactly the links that do not name the user |
| `Uflags.ParsedHas` | src/channel.c:679-742 | a flag is in the mask exactly when one of the letters stands for it |
| `Base64.Store` | src/base64.c:86-128 | one letter through the switch: fails exactly when the buffer has no room, writes the completed byte and what is kept |
| `Base64.Padding` | src/base64.c:130-151 | accepts exactly the padding the state asks for, with white space anywhere and a clear partial byte |
| `Base64.StopsEarly` | src/base64.c:89-120 | when the buffer is too small for the next letter there is no encoding that would fit |
| `Sasl.SplitMessage` | src/modules/sasl.c:110-123 | the split undoes the layout of section 2 of RFC 4616 for every authorization identity |

## Left out

- sockets, poll, signals, name resolution, module loading, mail and logging: foreign code.
- MySQL: tables are sequences of rows; escaping and the widths of columns are not modelled.
- password hashing and matching of masks and trusts: their outcomes are parameters.
- listings, help texts, notices and the dispatch of commands: they change no registry.
- names longer than their buffers and characters outside ASCII: names are taken to fit, and a key of 1024 characters or more aborts the program.
- failure of malloc.
- Core.Core.MUid: takes UIDs to be distinct from one another and from all names, as the servers keep them.
- Core.Core.MNick: takes the new name to be free; a failed insertion is ignored by the source and loses the nick.
- Core.Core.MSjoin: the status prefixes of the members are skipped; the status of members is modelled in `Mode` only.
- Core.Core.NickRegister: the tests of name, password and mail address that come before the account is made change nothing, and of its options only those of suspension and protection are modelled.
- Core.Core.DeleteWildNick: the registry of nicks is the store of online nicks, so a lookup by name goes through all of them as find_nick does.
- Registry.Registry.AddUserToChannel: is about pairs not yet in the relation; every caller deletes the pair first or has looked it up.
- Registry.Registry.ChanFlags: this and the other commands take the links to be free of circles, since the checks do not end on one.
- Registry.Registry.Userdrop: the session of the account is ended in `Core.Core.DeleteAccount`; here only the registries change.
- Ownership.AccessDeletedKeeps: the branches auto and list of the same command are left out; they change no ownership.
- FlagRuns.NoEscalation: is about callers who are no super administrators; those pass every check by design.
- AccessRuns.RunKeepsOwners: the commands that suspend entries are taken without their guards, which only makes for more runs.
- Mode.MMode: mode locks are left out, since they only send messages, and so is the limit of the array of arguments to 50.
- Flood.FloodBound: is about a sender that is no operator.
- Base64.B64Decode: the call without a target buffer is left out.
- Sasl.StartSession: the commands other than C, and what follows the split, change no registry.
- Database.Registries.LoadAllDb: the connection to the database, and the hook that is run at the end.
- Database.RoundTrip: the relation is compared, not the order of the lists; the entry of an owner comes first on the list of its channel after loading.
- nick_set_master, which rewrites a hash key in place, and the limits and time bans of channels.
- expiry of accounts and channels, the commands that assign bots, services' own clients, and the teardown of all registries on a reconnect.
- m_protoctl, which may add the uplink like m_server, and the guards of nick_drop and chan_register.
- ChannelCanReadACL and ChannelCanOverride, which follow the pattern of the modelled checks.
